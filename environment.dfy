/** `validateEnvironment` in server/services/environment.js: the server refuses to start
    unless every required variable is set to a non-empty value. */
module Environment {

  import opened Wrappers

  /** The variables required when the caller names none. */
  const DefaultRequired: seq<string> :=
    ["APP_NAME", "API_PORT", "INPUT_FOLDER", "OUTPUT_FOLDER", "MAGMA", "DATA_BUCKET"]

  /** `process.env[key]` is truthy: present and not the empty string. */
  predicate IsSet(env: map<string, string>, key: string)
  {
    key in env && env[key] != ""
  }

  /** The position of the first required key that is unset or empty. */
  function FirstMissing(env: map<string, string>, keys: seq<string>): (r: Option<nat>)
    ensures r.None? <==> forall i :: 0 <= i < |keys| ==> IsSet(env, keys[i])
    ensures r.Some? ==> r.value < |keys| && !IsSet(env, keys[r.value])
    ensures r.Some? ==> forall i :: 0 <= i < r.value ==> IsSet(env, keys[i])
  {
    if keys == [] then None
    else if !IsSet(env, keys[0]) then Some(0)
    else match FirstMissing(env, keys[1..])
      case None => None
      case Some(i) => Some(i + 1)
  }

  /** Returning normally, or throwing with a message. */
  datatype Check = Passed | Thrown(message: string)

  function MissingMessage(key: string): string
  {
    "Missing environment variable: " + key + "."
  }

  /** `validateEnvironment(requiredVariables)`; an absent argument means the default list. */
  function ValidateEnvironment(env: map<string, string>, required: Option<seq<string>>): (r: Check)
    ensures var keys := if required.Some? then required.value else DefaultRequired;
      && (r.Passed? <==> forall i :: 0 <= i < |keys| ==> IsSet(env, keys[i]))
      && (r.Thrown? ==> exists i :: 0 <= i < |keys| && !IsSet(env, keys[i])
                          && (forall j :: 0 <= j < i ==> IsSet(env, keys[j]))
                          && r.message == MissingMessage(keys[i]))
  {
    var keys := if required.Some? then required.value else DefaultRequired;
    match FirstMissing(env, keys)
    case None => Passed
    case Some(i) => Thrown(MissingMessage(keys[i]))
  }

  /** With no argument, each of the six default variables must be set. */
  lemma DefaultsRequired(env: map<string, string>)
    ensures ValidateEnvironment(env, None).Passed? <==>
      IsSet(env, "APP_NAME") && IsSet(env, "API_PORT") && IsSet(env, "INPUT_FOLDER")
      && IsSet(env, "OUTPUT_FOLDER") && IsSet(env, "MAGMA") && IsSet(env, "DATA_BUCKET")
  {
    var keys := DefaultRequired;
    assert keys[0] == "APP_NAME" && keys[1] == "API_PORT" && keys[2] == "INPUT_FOLDER";
    assert keys[3] == "OUTPUT_FOLDER" && keys[4] == "MAGMA" && keys[5] == "DATA_BUCKET";
  }

  /** Only the required keys matter: two environments that agree on whether each of them is
      set, and on the values of those set, give the same verdict. */
  lemma {:induction false} OnlyRequiredKeysMatter(env1: map<string, string>, env2: map<string, string>, keys: seq<string>)
    requires forall i :: 0 <= i < |keys| ==> IsSet(env1, keys[i]) == IsSet(env2, keys[i])
    ensures FirstMissing(env1, keys) == FirstMissing(env2, keys)
  {
    if keys != [] {
      OnlyRequiredKeysMatter(env1, env2, keys[1..]);
    }
  }

  /** Setting more variables never makes validation fail. */
  lemma MoreVariablesStillPass(env1: map<string, string>, env2: map<string, string>, required: Option<seq<string>>)
    requires forall k :: IsSet(env1, k) ==> IsSet(env2, k)
    requires ValidateEnvironment(env1, required).Passed?
    ensures ValidateEnvironment(env2, required).Passed?
  {
  }
}
