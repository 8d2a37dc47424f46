/** `parseVersionAndDate` in client/src/modules/footer/footer.jsx: the version and build date
    the page footer shows, both read from one build string. */
module Footer {

  import opened Wrappers
  import opened Strings

  datatype VersionInfo = VersionInfo(version: string, date: string)

  predicate DigitsBetween(s: string, i: nat, j: nat)
    requires i <= j <= |s|
  {
    forall k :: i <= k < j ==> IsDigit(s[k])
  }

  /** The length of the run of digits starting at `i`, as a greedy `\d+` consumes it. */
  function RunLength(s: string, i: nat): (n: nat)
    requires i <= |s|
    ensures i + n <= |s| && DigitsBetween(s, i, i + n)
    ensures i + n == |s| || !IsDigit(s[i + n])
    decreases |s| - i
  {
    if i < |s| && IsDigit(s[i]) then 1 + RunLength(s, i + 1) else 0
  }

  /** `s[i..e]` reads "digits.digits.digits" with its two dots at `p` and `q`. */
  predicate ShapeWith(s: string, i: nat, p: nat, q: nat, e: nat)
  {
    i < p && p + 1 < q && q + 1 < e && e <= |s| && s[p] == '.' && s[q] == '.'
    && DigitsBetween(s, i, p) && DigitsBetween(s, p + 1, q) && DigitsBetween(s, q + 1, e)
  }

  /** Where a match of `\d+\.\d+\.\d+` starting at `i` ends: each `\d+` takes its whole run. */
  function TripleEnd(s: string, i: nat): Option<nat>
    requires i <= |s|
  {
    var a := RunLength(s, i);
    if a == 0 || i + a == |s| || s[i + a] != '.' then None
    else
      var j := i + a + 1;
      var b := RunLength(s, j);
      if b == 0 || j + b == |s| || s[j + b] != '.' then None
      else
        var k := j + b + 1;
        var c := RunLength(s, k);
        if c == 0 then None else Some(k + c)
  }

  /** A match covers digits, a dot, digits, a dot and digits, and stops before a non-digit. */
  lemma TripleEndSound(s: string, i: nat)
    requires i <= |s| && TripleEnd(s, i).Some?
    ensures var p := i + RunLength(s, i);
      var e := TripleEnd(s, i).value;
      p < |s| && ShapeWith(s, i, p, p + 1 + RunLength(s, p + 1), e) && (e == |s| || !IsDigit(s[e]))
  {
  }

  /** A run of digits that stops before a non-digit is the whole run. */
  lemma RunBeforeStop(s: string, i: nat, p: nat)
    requires i <= p <= |s| && DigitsBetween(s, i, p) && (p == |s| || !IsDigit(s[p]))
    ensures RunLength(s, i) == p - i
  {
    var n := RunLength(s, i);
    assert i + n < |s| ==> !IsDigit(s[i + n]);
  }

  /** The regular expression matches at `i` exactly when the digits-dot-digits-dot-digits
      shape starts there, and it then takes the third run of digits whole. */
  lemma TripleEndComplete(s: string, i: nat, p: nat, q: nat, e: nat)
    requires ShapeWith(s, i, p, q, e) && (e == |s| || !IsDigit(s[e]))
    ensures TripleEnd(s, i) == Some(e)
  {
    RunBeforeStop(s, i, p);
    RunBeforeStop(s, p + 1, q);
    RunBeforeStop(s, q + 1, e);
  }

  /** The leftmost position at or after `i` where the version pattern matches, and its end. */
  function FindVersion(s: string, i: nat): (r: Option<(nat, nat)>)
    requires i <= |s|
    ensures r.Some? ==> i <= r.value.0 <= |s| && TripleEnd(s, r.value.0) == Some(r.value.1)
    ensures r.Some? ==> forall j :: i <= j < r.value.0 ==> TripleEnd(s, j).None?
    ensures r.None? ==> forall j :: i <= j <= |s| ==> TripleEnd(s, j).None?
    decreases |s| - i
  {
    match TripleEnd(s, i)
    case Some(e) => Some((i, e))
    case None => if i == |s| then None else FindVersion(s, i + 1)
  }

  /** Eight digits start at `j`. */
  predicate EightDigitsAt(s: string, j: nat)
  {
    j + 8 <= |s| && DigitsBetween(s, j, j + 8)
  }

  /** The leftmost position at or after `i` that starts eight digits (`\d{8}`). */
  function FindDate(s: string, i: nat): (r: Option<nat>)
    requires i <= |s|
    ensures r.Some? ==> i <= r.value && EightDigitsAt(s, r.value)
    ensures r.Some? ==> forall j :: i <= j < r.value ==> !EightDigitsAt(s, j)
    ensures r.None? ==> forall j :: i <= j ==> !EightDigitsAt(s, j)
    decreases |s| - i
  {
    if i + 8 > |s| then None
    else if DigitsBetween(s, i, i + 8) then Some(i)
    else FindDate(s, i + 1)
  }

  /** The version part: the leftmost match with a directly following "_dev" kept, else "dev". */
  function VersionOf(s: string): string
  {
    match FindVersion(s, 0)
    case None => "dev"
    case Some((st, e)) => s[st..e] + (if OccursAt(s, "_dev", e) then "_dev" else "")
  }

  /** Eight digits YYYYMMDD written as YYYY-MM-DD. */
  function Dashed(d: string): (r: string)
    requires |d| == 8
  {
    d[..4] + "-" + d[4..6] + "-" + d[6..]
  }

  /** The date part: the first eight-digit run, dashed, else today. */
  function DateOf(s: string, today: string): string
  {
    match FindDate(s, 0)
    case None => today
    case Some(i) => Dashed(s[i..i + 8])
  }

  /** `parseVersionAndDate(versionString)`; `today` is the current UTC date the browser
      reports, and `None` stands for an unset variable. */
  function ParseVersionAndDate(versionString: Option<string>, today: string): (r: VersionInfo)
    ensures versionString.None? || versionString == Some("") ==> r == VersionInfo("dev", today)
    ensures versionString.Some? && versionString.value != "" ==>
      r == VersionInfo(VersionOf(versionString.value), DateOf(versionString.value, today))
  {
    if versionString.None? || versionString.value == "" then VersionInfo("dev", today)
    else VersionInfo(VersionOf(versionString.value), DateOf(versionString.value, today))
  }

  /** An ISO 8601 calendar date as the footer prints it: YYYY-MM-DD. */
  predicate IsIsoDate(d: string)
  {
    |d| == 10 && d[4] == '-' && d[7] == '-'
    && DigitsBetween(d, 0, 4) && DigitsBetween(d, 5, 7) && DigitsBetween(d, 8, 10)
  }

  /** The date removing its dashes. */
  function Undashed(d: string): string
    requires |d| == 10
  {
    d[..4] + d[5..7] + d[8..]
  }

  /** Dashing is undone by removing the dashes, and every dashed run is an ISO date. */
  lemma DashedRoundTrip(d: string)
    requires |d| == 8 && DigitsBetween(d, 0, 8)
    ensures IsIsoDate(Dashed(d)) && Undashed(Dashed(d)) == d
  {
    var r := Dashed(d);
    assert r[..4] == d[..4] && r[5..7] == d[4..6] && r[8..] == d[6..];
    assert d == d[..4] + d[4..6] + d[6..];
  }

  /** The date shown is today or the first eight-digit run of the string, as an ISO date. */
  lemma DateIsIsoOrToday(s: string, today: string)
    ensures var d := DateOf(s, today);
      d == today || (IsIsoDate(d) && exists i: nat :: EightDigitsAt(s, i) && Undashed(d) == s[i..i + 8])
  {
    match FindDate(s, 0)
    case None =>
    case Some(i) =>
      var run := s[i..i + 8];
      assert DigitsBetween(run, 0, 8) by {
        forall k | 0 <= k < 8 ensures IsDigit(run[k]) {
          assert run[k] == s[i + k];
        }
      }
      DashedRoundTrip(run);
  }

  /** A build string that starts with a version (a full run of digits, a dot, digits, a dot,
      digits) shows that version, with "_dev" when it follows immediately. */
  lemma VersionAtStart(s: string, p: nat, q: nat, e: nat)
    requires ShapeWith(s, 0, p, q, e) && (e == |s| || !IsDigit(s[e]))
    ensures VersionOf(s) == s[..e] + (if OccursAt(s, "_dev", e) then "_dev" else "")
  {
    TripleEndComplete(s, 0, p, q, e);
  }

  /** A string with no version in it shows "dev". */
  lemma NoVersionMeansDev(s: string)
    requires forall i, p, q, e :: !ShapeWith(s, i, p, q, e)
    ensures VersionOf(s) == "dev"
  {
    if FindVersion(s, 0).Some? {
      TripleEndSound(s, FindVersion(s, 0).value.0);
      assert false;
    }
  }
}
