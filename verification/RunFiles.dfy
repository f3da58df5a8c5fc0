/** File names of background runs: sanitizing, the current and the rotated form, and telling
    the two apart (internal/agentbox/process.go, internal/agentbox/run_record.go). */
module RunFiles {
  import opened Wrappers
  import opened Decimal

  predicate SafeChar(c: char) {
    'a' <= c <= 'z' || 'A' <= c <= 'Z' || '0' <= c <= '9' || c == '-' || c == '_' || c == '.'
  }

  function Safe(c: char): char { if SafeChar(c) then c else '_' }

  function Sanitized(name: string): string { seq(|name|, i requires 0 <= i < |name| => Safe(name[i])) }

  method SanitizeName(name: string) returns (out: string)
    ensures out == Sanitized(name) && |out| == |name|
    ensures forall i :: 0 <= i < |name| ==> SafeChar(out[i]) && (SafeChar(name[i]) ==> out[i] == name[i])
    ensures forall i :: 0 <= i < |name| && !SafeChar(name[i]) ==> out[i] == '_'
    ensures forall i :: 0 <= i < |name| ==>
      out[i] == if 'a' <= name[i] <= 'z' || 'A' <= name[i] <= 'Z' || '0' <= name[i] <= '9'
                   || name[i] in "-_." then name[i] else '_'
    ensures '/' !in out
  {
    out := "";
    for i := 0 to |name|
      invariant |out| == i
      invariant forall k :: 0 <= k < i ==> out[k] == Safe(name[k])
    {
      out := out + [Safe(name[i])];
    }
  }

  /** The text after the last '.', if there is a '.' at all. */
  function AfterLastDot(s: string): Option<string> {
    if s == "" then None
    else if s[|s| - 1] == '.' then Some("")
    else
      var t := AfterLastDot(s[..|s| - 1]);
      if t.None? then None else Some(t.value + [s[|s| - 1]])
  }

  predicate EndsInDotDigits(s: string) {
    var t := AfterLastDot(s);
    t.Some? && t.value != "" && AllDigits(t.value)
  }

  lemma {:induction false} AfterLastDotSplits(s: string)
    ensures AfterLastDot(s).Some? ==>
      var t := AfterLastDot(s).value; |t| < |s| && s == s[..|s| - |t| - 1] + "." + t
  {
    if s != "" && s[|s| - 1] != '.' {
      AfterLastDotSplits(s[..|s| - 1]);
      assert s == s[..|s| - 1] + [s[|s| - 1]];
    }
  }

  /** A '.' and then digits to the end, at least one. */
  predicate DotDigitsAt(s: string, k: nat) {
    k < |s| - 1 && s[k] == '.' && forall i :: k < i < |s| ==> '0' <= s[i] <= '9'
  }

  lemma DotDigitsFrom(s: string, k: nat)
    requires DotDigitsAt(s, k)
    ensures EndsInDotDigits(s)
  {
    var t := s[k + 1..];
    assert s == s[..k] + "." + t;
    assert forall i :: 0 <= i < |t| ==> '0' <= t[i] <= '9';
    assert '.' !in t;
    AfterLastDotOf(s[..k], t);
  }

  lemma DotDigitsTo(s: string)
    requires EndsInDotDigits(s)
    ensures exists k: nat :: DotDigitsAt(s, k)
  {
    AfterLastDotSplits(s);
    var t := AfterLastDot(s).value;
    var k := |s| - |t| - 1;
    assert s[k] == '.' && s[k + 1..] == t;
    forall i | k < i < |s| ensures '0' <= s[i] <= '9' {
      assert s[i] == t[i - k - 1];
    }
    assert DotDigitsAt(s, k);
  }

  /** The names that look rotated. */
  lemma EndsInDotDigitsExactly(s: string)
    ensures EndsInDotDigits(s) <==> exists k: nat :: DotDigitsAt(s, k)
  {
    if EndsInDotDigits(s) {
      DotDigitsTo(s);
    }
    if k: nat :| DotDigitsAt(s, k) {
      DotDigitsFrom(s, k);
    }
  }

  /** "<name>.<started-at-unix-seconds>", the stem rotateFinishedRun renames to. */
  function RotatedStem(name: string, sec: nat): string { name + "." + Digits(sec) }

  lemma {:induction false} AfterLastDotOf(a: string, t: string)
    requires '.' !in t
    ensures AfterLastDot(a + "." + t) == Some(t)
  {
    var s := a + "." + t;
    if t == "" {
      assert s[|s| - 1] == '.';
    } else {
      AfterLastDotOf(a, t[..|t| - 1]);
      assert s[..|s| - 1] == a + "." + t[..|t| - 1];
      assert t == t[..|t| - 1] + [t[|t| - 1]];
    }
  }

  lemma RotatedEndsInDigits(name: string, sec: nat)
    ensures AfterLastDot(RotatedStem(name, sec)) == Some(Digits(sec))
    ensures EndsInDotDigits(RotatedStem(name, sec))
  {
    DigitsShape(sec);
    AfterLastDotOf(name, Digits(sec));
  }

  /** A rotated stem names one run: it determines the name and the start second. */
  lemma RotatedUnique(a: string, s: nat, b: string, t: nat)
    requires RotatedStem(a, s) == RotatedStem(b, t)
    ensures a == b && s == t
  {
    RotatedEndsInDigits(a, s);
    RotatedEndsInDigits(b, t);
    AccumulateDigits(s);
    AccumulateDigits(t);
    var x := RotatedStem(a, s);
    assert x[..|a|] == a && x[..|b|] == b;
  }

  const JSON := ".json"
  const LOG := ".log"
  const EXIT := ".exit"

  predicate Extension(x: string) { x == JSON || x == LOG || x == EXIT }

  /** The three kinds of file never share a path, so each has a name space of its own. */
  lemma PathsDistinct(s: string, x: string, t: string, y: string)
    requires Extension(x) && Extension(y) && s + x == t + y
    ensures s == t && x == y
  {
    var p := s + x;
    assert p[|p| - 1] == x[|x| - 1] && p[|p| - 1] == y[|y| - 1];
    assert x == y;
    assert p[..|s|] == s && p[..|t|] == t;
  }

  /** IsCurrentRecordFile; the regular expression is \.\d+\.json at the end. */
  predicate IsCurrentRecordFile(f: string) {
    && |f| >= |JSON| && f[|f| - |JSON|..] == JSON
    && f[0] != '.'
    && !EndsInDotDigits(f[..|f| - |JSON|])
  }

  /** A listing keeps a name's current record and drops every rotated one, for names that do
      not start with '.' and do not look rotated themselves. */
  lemma ListingKeepsCurrent(name: string, sec: nat)
    requires name != ""
    ensures IsCurrentRecordFile(name + JSON) <==> name[0] != '.' && !EndsInDotDigits(name)
    ensures !IsCurrentRecordFile(RotatedStem(name, sec) + JSON)
  {
    var f := name + JSON;
    assert f[..|f| - |JSON|] == name && f[|f| - |JSON|..] == JSON;
    var g := RotatedStem(name, sec) + JSON;
    assert g[..|g| - |JSON|] == RotatedStem(name, sec);
    RotatedEndsInDigits(name, sec);
  }
}
