/** How `magma` in server/services/magma.js turns a nested argument list into the argv of
    one run of the external MAGMA binary, and which binary it runs. */
module MagmaCli {

  import opened Strings
  import opened Js

  /** One entry of the list handed to `magma`: a bare value, or an array of values. */
  datatype ArgGroup = One(v: JsValue) | Many(vs: seq<JsValue>)

  /** `args.flat()`: one level of nesting removed. */
  function Flat(groups: seq<ArgGroup>): seq<JsValue>
  {
    if groups == [] then [] else Values(groups[0]) + Flat(groups[1..])
  }

  function Values(g: ArgGroup): seq<JsValue>
  {
    match g
    case One(v) => [v]
    case Many(vs) => vs
  }

  /** `filter(Boolean)`: the truthy entries, in order. */
  function KeepTruthy(vs: seq<JsValue>): (r: seq<JsValue>)
    ensures |r| <= |vs|
    ensures forall i :: 0 <= i < |r| ==> Truthy(r[i])
  {
    if vs == [] then [] else (if Truthy(vs[0]) then [vs[0]] else []) + KeepTruthy(vs[1..])
  }

  function Texts(vs: seq<JsValue>): (r: seq<string>)
    ensures |r| == |vs|
  {
    seq(|vs|, i requires 0 <= i < |vs| => ToText(vs[i]))
  }

  /** The argv `execFile` receives: groups flattened one level, falsy entries dropped,
      each remaining value as text. */
  function Argv(groups: seq<ArgGroup>): (r: seq<string>)
    ensures forall i :: 0 <= i < |r| ==> r[i] != ""
  {
    Texts(KeepTruthy(Flat(groups)))
  }

  lemma {:induction false} FlatAppend(a: seq<ArgGroup>, b: seq<ArgGroup>)
    ensures Flat(a + b) == Flat(a) + Flat(b)
  {
    if a == [] {
      assert a + b == b;
    } else {
      assert (a + b)[0] == a[0] && (a + b)[1..] == a[1..] + b;
      assert Flat(a + b) == Values(a[0]) + Flat(a[1..] + b);
      FlatAppend(a[1..], b);
      assert Flat(a) == Values(a[0]) + Flat(a[1..]);
    }
  }

  lemma {:induction false} KeepTruthyAppend(a: seq<JsValue>, b: seq<JsValue>)
    ensures KeepTruthy(a + b) == KeepTruthy(a) + KeepTruthy(b)
  {
    if a == [] {
      assert a + b == b;
    } else {
      var head := if Truthy(a[0]) then [a[0]] else [];
      assert (a + b)[0] == a[0] && (a + b)[1..] == a[1..] + b;
      assert KeepTruthy(a + b) == head + KeepTruthy(a[1..] + b);
      KeepTruthyAppend(a[1..], b);
      assert KeepTruthy(a) == head + KeepTruthy(a[1..]);
    }
  }

  /** The argv of a concatenation of argument lists is the concatenation of their argvs:
      every group contributes its own tokens, in place. */
  lemma ArgvAppend(a: seq<ArgGroup>, b: seq<ArgGroup>)
    ensures Argv(a + b) == Argv(a) + Argv(b)
  {
    FlatAppend(a, b);
    KeepTruthyAppend(Flat(a), Flat(b));
  }

  /** An optional entry that is falsy (`x && [...]` with `x` unset) leaves no token at all. */
  lemma ArgvOmitted(v: JsValue)
    requires !Truthy(v)
    ensures Argv([One(v)]) == []
  {
    assert Flat([One(v)]) == [v];
  }

  /** A group of set values contributes each of them, in order. */
  lemma {:induction false} ArgvOfTruthyGroup(vs: seq<JsValue>)
    requires forall i :: 0 <= i < |vs| ==> Truthy(vs[i])
    ensures Argv([Many(vs)]) == Texts(vs)
  {
    assert Flat([Many(vs)]) == vs;
    KeepAllTruthy(vs);
  }

  /** A list of single values flattens to those values. */
  lemma {:induction false} FlatOfSingles(groups: seq<ArgGroup>, vs: seq<JsValue>)
    requires |groups| == |vs| && forall i :: 0 <= i < |groups| ==> groups[i] == One(vs[i])
    ensures Flat(groups) == vs
  {
    if groups != [] {
      FlatOfSingles(groups[1..], vs[1..]);
    }
  }

  /** A list of set single values passes each of them, in order. */
  lemma ArgvOfSingles(groups: seq<ArgGroup>, vs: seq<JsValue>)
    requires |groups| == |vs| && forall i :: 0 <= i < |groups| ==> groups[i] == One(vs[i])
    requires forall i :: 0 <= i < |vs| ==> Truthy(vs[i])
    ensures Argv(groups) == Texts(vs)
  {
    FlatOfSingles(groups, vs);
    KeepAllTruthy(vs);
  }

  lemma {:induction false} KeepAllTruthy(vs: seq<JsValue>)
    requires forall i :: 0 <= i < |vs| ==> Truthy(vs[i])
    ensures KeepTruthy(vs) == vs
  {
    if vs != [] {
      KeepAllTruthy(vs[1..]);
    }
  }

  /** JavaScript's `a && b && group`: the group when both guards are truthy, otherwise the
      first falsy guard (which `filter(Boolean)` then drops). */
  function Guarded(a: JsValue, b: JsValue, group: seq<JsValue>): (r: ArgGroup)
    ensures Truthy(a) && Truthy(b) ==> r == Many(group)
    ensures !(Truthy(a) && Truthy(b)) ==> r.One? && !Truthy(r.v)
  {
    if !Truthy(a) then One(a) else if !Truthy(b) then One(b) else Many(group)
  }

  /** `path.join` separator of the host platform. */
  function Separator(platform: string): string { if platform == "win32" then "\\" else "/" }

  /** The binary's file name: `magma_enhanced` for the "enhanced" model and `magma`
      otherwise (including when no type is given), with ".exe" exactly on win32. */
  function ExecutableName(platform: string, magmaType: JsValue): (r: string)
    ensures EndsWith(r, ".exe") <==> platform == "win32"
    ensures StartsWith(r, "magma_enhanced") <==> magmaType == Str("enhanced")
  {
    var exec := if magmaType == Str("enhanced") then "magma_enhanced" else "magma";
    var name := exec + (if platform == "win32" then ".exe" else "");
    assert name[..5] == "magma";
    assert platform != "win32" ==> name[|name| - 1] in "ad";
    assert platform == "win32" ==> name[|name| - 4..] == ".exe";
    name
  }

  /** `path.join("bin", platform, exec + ext)`. */
  function ExecPath(platform: string, magmaType: JsValue): string
  {
    "bin" + Separator(platform) + platform + Separator(platform) + ExecutableName(platform, magmaType)
  }

  /** What one call of `magma(args, type)` does. */
  datatype Call = Run(exec: string, argv: seq<string>) | Unsupported(message: string)

  function UnsupportedMessage(platform: string): string { "Unsupported platform: " + platform }

  /** `magma`: if the binary is not installed, the call fails before anything runs;
      otherwise the binary runs with the filtered argv. */
  function Magma(groups: seq<ArgGroup>, magmaType: JsValue, platform: string, installed: set<string>): (c: Call)
    ensures c.Unsupported? <==> ExecPath(platform, magmaType) !in installed
    ensures c.Unsupported? ==> c.message == "Unsupported platform: " + platform
    ensures c.Run? ==> c.exec == ExecPath(platform, magmaType) && c.argv == Argv(groups)
  {
    var path := ExecPath(platform, magmaType);
    if path in installed then Run(path, Argv(groups)) else Unsupported(UnsupportedMessage(platform))
  }

}
