/**
 * String operations the handlers rely on: ASCII case folding and substring
 * search (the database's case-insensitive `contains`), decimal rendering of
 * a natural number (template literals), and joining and splitting on a
 * separator character (`Array.prototype.join` and `String.prototype.split`).
 */
module Text {

  /** ASCII upper-case letters become lower-case; every other character is kept. */
  function Lower(c: char): (r: char)
    ensures 'A' <= c <= 'Z' ==> r as int == c as int + 32
    ensures !('A' <= c <= 'Z') ==> r == c
    ensures !('A' <= r <= 'Z')
  {
    if 'A' <= c <= 'Z' then (c as int + 32) as char else c
  }

  function LowerString(s: string): (r: string)
    ensures |r| == |s|
    ensures forall i :: 0 <= i < |s| ==> r[i] == Lower(s[i])
  {
    if s == [] then [] else [Lower(s[0])] + LowerString(s[1..])
  }

  /** Folding twice is folding once. */
  lemma LowerStringIdempotent(s: string)
    ensures LowerString(LowerString(s)) == LowerString(s)
  {
  }

  /** `t` occurs in `s` starting at index i. */
  predicate OccursAt(s: string, t: string, i: int) {
    0 <= i && i + |t| <= |s| && s[i..i + |t|] == t
  }

  /** `s` contains `t`: `t` is a prefix of `s` or of one of its suffixes. */
  predicate Contains(s: string, t: string)
    decreases |s|
  {
    (|t| <= |s| && s[..|t|] == t) || (s != [] && Contains(s[1..], t))
  }

  /** Containment is an occurrence at some index. */
  lemma {:induction false} ContainsIffOccurs(s: string, t: string)
    ensures Contains(s, t) <==> exists i :: OccursAt(s, t, i)
    decreases |s|
  {
    if |t| <= |s| && s[..|t|] == t {
      assert OccursAt(s, t, 0);
    } else if s != [] {
      ContainsIffOccurs(s[1..], t);
      if Contains(s[1..], t) {
        var i :| OccursAt(s[1..], t, i);
        assert s[i + 1..i + 1 + |t|] == s[1..][i..i + |t|];
        assert OccursAt(s, t, i + 1);
      }
      if exists i :: OccursAt(s, t, i) {
        var i :| OccursAt(s, t, i);
        assert i > 0;
        assert s[1..][i - 1..i - 1 + |t|] == s[i..i + |t|];
        assert OccursAt(s[1..], t, i - 1);
      }
    }
  }

  /** `contains: t, mode: "insensitive"`, with ASCII case folding. */
  predicate ContainsIgnoringCase(s: string, t: string) {
    Contains(LowerString(s), LowerString(t))
  }

  /** Case-insensitive search: a match is an occurrence after folding both sides, and the empty text matches everything. */
  lemma ContainsIgnoringCaseMeaning(s: string, t: string)
    ensures ContainsIgnoringCase(s, t) ==> exists i :: OccursAt(LowerString(s), LowerString(t), i)
    ensures (exists i :: OccursAt(LowerString(s), LowerString(t), i)) ==> ContainsIgnoringCase(s, t)
    ensures t == "" ==> ContainsIgnoringCase(s, t)
    ensures ContainsIgnoringCase(s, t) ==> |t| <= |s|
  {
    var ls, lt := LowerString(s), LowerString(t);
    ContainsIffOccurs(ls, lt);
    if t == "" {
      assert ls[..0] == lt;
    }
    if ContainsIgnoringCase(s, t) {
      var i :| OccursAt(ls, lt, i);
    }
  }

  /** Changing the case of either side does not change the answer. */
  lemma ContainsIgnoringCaseIsCaseBlind(s: string, t: string)
    ensures ContainsIgnoringCase(LowerString(s), t) == ContainsIgnoringCase(s, t)
    ensures ContainsIgnoringCase(s, LowerString(t)) == ContainsIgnoringCase(s, t)
  {
    LowerStringIdempotent(s);
    LowerStringIdempotent(t);
  }

  predicate IsDigit(c: char) {
    '0' <= c <= '9'
  }

  /** The decimal text of a natural number, most significant digit first, as `${n}` renders it. */
  function NatToString(n: nat): (s: string)
    ensures |s| >= 1
    ensures forall i :: 0 <= i < |s| ==> IsDigit(s[i])
    ensures n >= 10 ==> s[0] != '0'
    decreases n
  {
    if n < 10 then [DigitChar(n)] else NatToString(n / 10) + [DigitChar(n % 10)]
  }

  function DigitChar(d: nat): (c: char)
    requires d < 10
    ensures IsDigit(c) && c as int - '0' as int == d
  {
    ('0' as int + d) as char
  }

  /** The number a string of digits denotes. */
  function DigitsValue(s: string): nat
    requires forall i :: 0 <= i < |s| ==> IsDigit(s[i])
  {
    if s == [] then 0
    else
      var last := s[|s| - 1];
      assert IsDigit(last);
      DigitsValue(s[..|s| - 1]) * 10 + (last as int - '0' as int)
  }

  /** Reading the digits back gives the number: the rendering loses nothing. */
  lemma {:induction false} NatToStringRoundTrip(n: nat)
    ensures DigitsValue(NatToString(n)) == n
    decreases n
  {
    if n >= 10 {
      NatToStringRoundTrip(n / 10);
      var s := NatToString(n);
      assert s[..|s| - 1] == NatToString(n / 10);
    }
  }

  /** Distinct numbers render as distinct strings. */
  lemma NatToStringInjective(a: nat, b: nat)
    requires NatToString(a) == NatToString(b)
    ensures a == b
  {
    NatToStringRoundTrip(a);
    NatToStringRoundTrip(b);
  }

  /** `parts.join(sep)`: the parts with one separator between consecutive parts. */
  function Join(parts: seq<string>, sep: string): (s: string)
    ensures parts == [] ==> s == ""
  {
    if parts == [] then ""
    else if |parts| == 1 then parts[0]
    else parts[0] + sep + Join(parts[1..], sep)
  }

  /** `s.split(sep)` for a one-character separator: the pieces between separators. */
  function Split(s: string, sep: char): (parts: seq<string>)
    ensures |parts| >= 1
    decreases |s|
  {
    if s == [] then [""]
    else
      var rest := Split(s[1..], sep);
      if s[0] == sep then [""] + rest else [[s[0]] + rest[0]] + rest[1..]
  }

  /** A part that the separator does not occur in. */
  predicate Free(part: string, sep: char) {
    forall i :: 0 <= i < |part| ==> part[i] != sep
  }

  /** Splitting a part free of the separator, followed by the separator and more text. */
  lemma {:induction false} SplitFreePrefix(part: string, sep: char, rest: string)
    requires Free(part, sep)
    ensures Split(part + [sep] + rest, sep) == [part] + Split(rest, sep)
    decreases |part|
  {
    if part == [] {
      assert part + [sep] + rest == [sep] + rest;
      assert ([sep] + rest)[1..] == rest;
    } else {
      SplitFreePrefix(part[1..], sep, rest);
      assert (part + [sep] + rest)[1..] == part[1..] + [sep] + rest;
      assert [part[0]] + part[1..] == part;
    }
  }

  /** Splitting a part free of the separator gives the part back. */
  lemma {:induction false} SplitFree(part: string, sep: char)
    requires Free(part, sep)
    ensures Split(part, sep) == [part]
    decreases |part|
  {
    if part != [] {
      SplitFree(part[1..], sep);
      assert [part[0]] + part[1..] == part;
    }
  }

  /** Joining parts free of the separator and splitting again gives the parts back. */
  lemma {:induction false} SplitJoin(parts: seq<string>, sep: char)
    requires parts != []
    requires forall i :: 0 <= i < |parts| ==> Free(parts[i], sep)
    ensures Split(Join(parts, [sep]), sep) == parts
    decreases |parts|
  {
    if |parts| == 1 {
      SplitFree(parts[0], sep);
    } else {
      SplitJoin(parts[1..], sep);
      SplitFreePrefix(parts[0], sep, Join(parts[1..], [sep]));
      assert [parts[0]] + parts[1..] == parts;
    }
  }

  /** Joining parts that a character occurs in nowhere, with a separator it does not occur in either, gives text free of it. */
  lemma {:induction false} JoinFree(parts: seq<string>, sep: string, c: char)
    requires forall i :: 0 <= i < |parts| ==> Free(parts[i], c)
    requires Free(sep, c)
    ensures Free(Join(parts, sep), c)
    decreases |parts|
  {
    if |parts| > 1 {
      JoinFree(parts[1..], sep, c);
      var rest := Join(parts[1..], sep);
      var s := parts[0] + sep + rest;
      forall i | 0 <= i < |s|
        ensures s[i] != c
      {
        if i < |parts[0]| {
          assert s[i] == parts[0][i];
        } else if i < |parts[0]| + |sep| {
          assert s[i] == sep[i - |parts[0]|];
        } else {
          assert s[i] == rest[i - |parts[0]| - |sep|];
        }
      }
    }
  }
}
