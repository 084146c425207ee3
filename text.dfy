/**
 The three Python string operations the planner relies on, written out:
 `s.split(" ")`, `s.strip()` (whitespace as `str.isspace` defines it) and the
 substring test `pat in s`.
 */
module Text {

  /** Python's whitespace: the characters `str.isspace` accepts, the ones
      `str.strip()` removes when called without an argument. */
  predicate IsSpace(c: char) {
    var n := c as int;
    (0x09 <= n <= 0x0D) || (0x1C <= n <= 0x20) || n == 0x85 || n == 0xA0 ||
    n == 0x1680 || (0x2000 <= n <= 0x200A) || n == 0x2028 || n == 0x2029 ||
    n == 0x202F || n == 0x205F || n == 0x3000
  }

  predicate AllSpace(s: string) {
    forall i :: 0 <= i < |s| ==> IsSpace(s[i])
  }

  // ---------------------------------------------------------------------
  // s.split(" ")

  /** `sep.join(parts)` with `sep == " "`. */
  function Join(parts: seq<string>): string {
    if |parts| == 0 then ""
    else if |parts| == 1 then parts[0]
    else parts[0] + " " + Join(parts[1..])
  }

  /** `s.split(" ")`: the pieces between single spaces, empty ones included;
      never an empty list. Joining the pieces back gives `s`. */
  function Split(s: string): (r: seq<string>)
    ensures |r| >= 1
    ensures forall i :: 0 <= i < |r| ==> ' ' !in r[i]
    ensures Join(r) == s
  {
    if s == [] then [""]
    else
      var rest := Split(s[1..]);
      if s[0] == ' ' then [""] + rest
      else [[s[0]] + rest[0]] + rest[1..]
  }

  lemma {:induction false} SplitNoSpace(p: string, t: string)
    requires ' ' !in p
    ensures Split(p + t) == [p + Split(t)[0]] + Split(t)[1..]
  {
    if p != [] {
      assert (p + t)[1..] == p[1..] + t;
      SplitNoSpace(p[1..], t);
      assert [p[0]] + (p[1..] + Split(t)[0]) == p + Split(t)[0];
    } else {
      assert p + t == t && p + Split(t)[0] == Split(t)[0];
      assert Split(t) == [Split(t)[0]] + Split(t)[1..];
    }
  }

  /** The other half of the round trip: space-free pieces joined with " "
      split back into exactly those pieces. */
  lemma {:induction false} SplitJoin(parts: seq<string>)
    requires |parts| >= 1
    requires forall i :: 0 <= i < |parts| ==> ' ' !in parts[i]
    ensures Split(Join(parts)) == parts
  {
    if |parts| == 1 {
      SplitNoSpace(parts[0], "");
      assert parts[0] + "" == parts[0];
    } else {
      var rest := parts[1..];
      SplitJoin(rest);
      var t := " " + Join(rest);
      assert t[1..] == Join(rest);
      assert Split(t) == [""] + rest;
      SplitNoSpace(parts[0], t);
      assert parts[0] + t == parts[0] + " " + Join(rest);
      assert parts[0] + "" == parts[0];
      assert parts == [parts[0]] + rest;
    }
  }

  lemma {:induction false} AllSpaceAppend(a: string, b: string)
    ensures AllSpace(a + b) <==> AllSpace(a) && AllSpace(b)
  {
    if AllSpace(a) && AllSpace(b) {
      forall i | 0 <= i < |a + b| ensures IsSpace((a + b)[i]) {
        if i < |a| { assert (a + b)[i] == a[i]; } else { assert (a + b)[i] == b[i - |a|]; }
      }
    }
    if AllSpace(a + b) {
      forall i | 0 <= i < |a| ensures IsSpace(a[i]) { assert (a + b)[i] == a[i]; }
      forall i | 0 <= i < |b| ensures IsSpace(b[i]) { assert (a + b)[|a| + i] == b[i]; }
    }
  }

  /** A joined text is all whitespace exactly when every piece is. */
  lemma {:induction false} JoinAllSpace(parts: seq<string>)
    ensures AllSpace(Join(parts)) <==> forall i :: 0 <= i < |parts| ==> AllSpace(parts[i])
  {
    if |parts| > 1 {
      JoinAllSpace(parts[1..]);
      AllSpaceAppend(parts[0] + " ", Join(parts[1..]));
      AllSpaceAppend(parts[0], " ");
      assert IsSpace(" "[0]);
      forall i | 0 <= i < |parts[1..]| ensures parts[1..][i] == parts[i + 1] { }
      if forall i :: 0 <= i < |parts| ==> AllSpace(parts[i]) {
        assert AllSpace(parts[0]);
      }
    }
  }

  // ---------------------------------------------------------------------
  // s.strip()

  /** `s.lstrip()`: the suffix left after dropping leading whitespace. */
  function StripLeft(s: string): (r: string)
    ensures |r| <= |s| && r == s[|s| - |r|..]
    ensures forall i :: 0 <= i < |s| - |r| ==> IsSpace(s[i])
    ensures r == [] || !IsSpace(r[0])
  {
    if s != [] && IsSpace(s[0]) then StripLeft(s[1..]) else s
  }

  /** `s.rstrip()`: the prefix left after dropping trailing whitespace. */
  function StripRight(s: string): (r: string)
    ensures |r| <= |s| && r == s[..|r|]
    ensures forall i :: |r| <= i < |s| ==> IsSpace(s[i])
    ensures r == [] || !IsSpace(r[|r| - 1])
  {
    if s != [] && IsSpace(s[|s| - 1]) then StripRight(s[..|s| - 1]) else s
  }

  /** `s.strip()`. */
  function Strip(s: string): string {
    StripRight(StripLeft(s))
  }

  /** `s.strip() == ""` holds exactly for the texts made of whitespace only. */
  lemma StripEmptyIff(s: string)
    ensures Strip(s) == "" <==> AllSpace(s)
  {
  }

  // ---------------------------------------------------------------------
  // pat in s

  /** `pat` occurs in `s` starting at index `i`. */
  predicate OccursAt(s: string, pat: string, i: int) {
    0 <= i && i + |pat| <= |s| && s[i..i + |pat|] == pat
  }

  /** Python's `pat in s` for strings; ContainsIff gives its meaning. */
  function Contains(s: string, pat: string): bool
    decreases |s|
  {
    if |pat| > |s| then false
    else if s[..|pat|] == pat then true
    else s != [] && Contains(s[1..], pat)
  }

  /** `pat in s` holds exactly when `pat` occurs in `s` at some index. */
  lemma {:induction false} ContainsIff(s: string, pat: string)
    ensures Contains(s, pat) <==> exists i :: OccursAt(s, pat, i)
    decreases |s|
  {
    if |pat| > |s| {
    } else if s[..|pat|] == pat {
      assert OccursAt(s, pat, 0);
    } else if s != [] {
      ContainsIff(s[1..], pat);
      if Contains(s[1..], pat) {
        var i :| OccursAt(s[1..], pat, i);
        OccursShift(s, pat, i + 1);
      } else {
        forall i | OccursAt(s, pat, i) ensures false {
          OccursShift(s, pat, i);
        }
      }
    }
  }

  lemma OccursShift(s: string, pat: string, i: int)
    requires s != [] && 1 <= i
    ensures OccursAt(s, pat, i) <==> OccursAt(s[1..], pat, i - 1)
  {
    if i + |pat| <= |s| {
      assert s[1..][i - 1..i - 1 + |pat|] == s[i..i + |pat|];
    }
  }

  /** For a one-character pattern, `pat in s` is character membership. */
  lemma ContainsChar(s: string, c: char)
    ensures Contains(s, [c]) <==> c in s
  {
    ContainsIff(s, [c]);
    if c in s {
      var i :| 0 <= i < |s| && s[i] == c;
      assert s[i..i + 1] == [c];
      assert OccursAt(s, [c], i);
    }
    if Contains(s, [c]) {
      var i :| OccursAt(s, [c], i);
      assert s[i] == s[i..i + 1][0];
    }
  }
}
