/** String helpers with the semantics of Python's `str` methods, restricted to
    ASCII character classes. */
module Text {
  import opened Wrappers

  /** `s.startswith(p)` */
  predicate StartsWith(s: string, p: string)
  {
    |p| <= |s| && s[..|p|] == p
  }

  /** `s.endswith(p)` */
  predicate EndsWith(s: string, p: string)
  {
    |p| <= |s| && s[|s| - |p|..] == p
  }

  /** Concatenation is associative (stated for the solver, which does not
      always find it unaided). */
  lemma AppendAssoc<T>(x: seq<T>, y: seq<T>, z: seq<T>)
    ensures (x + y) + z == x + (y + z)
  {
  }

  /** `p` occurs in `s` starting at index `i` */
  predicate OccursAt(s: string, p: string, i: int)
  {
    0 <= i <= |s| - |p| && s[i..i + |p|] == p
  }

  /** `p in s` */
  predicate Contains(s: string, p: string)
  {
    exists i :: 0 <= i <= |s| - |p| && OccursAt(s, p, i)
  }

  /** `s.find(p, from)`: the first occurrence of `p` at or after `from` */
  function FindFrom(s: string, p: string, from: nat): (r: Option<nat>)
    requires from <= |s|
    decreases |s| - from
    ensures r.Some? ==> from <= r.value && OccursAt(s, p, r.value)
  {
    if |s| - from < |p| then None
    else if s[from..from + |p|] == p then Some(from)
    else if from == |s| then None
    else FindFrom(s, p, from + 1)
  }

  /** `find` returns the FIRST occurrence at or after `from`, and None only
      when there is none. */
  lemma {:induction false} FindFromFirst(s: string, p: string, from: nat)
    requires from <= |s|
    decreases |s| - from
    ensures FindFrom(s, p, from).Some? ==> forall j :: from <= j < FindFrom(s, p, from).value ==> !OccursAt(s, p, j)
    ensures FindFrom(s, p, from).None? ==> forall j :: from <= j ==> !OccursAt(s, p, j)
  {
    if |s| - from >= |p| && s[from..from + |p|] != p && from < |s| {
      FindFromFirst(s, p, from + 1);
    }
  }

  /** An occurrence with none before it, from `from` on, is the one `find` returns. */
  lemma FindFromAt(s: string, p: string, from: nat, c: nat)
    requires from <= c && OccursAt(s, p, c)
    requires forall j :: from <= j < c ==> !OccursAt(s, p, j)
    ensures FindFrom(s, p, from) == Some(c)
  {
    FindFromFirst(s, p, from);
  }

  lemma ContainsIffFound(s: string, p: string)
    ensures Contains(s, p) <==> FindFrom(s, p, 0).Some?
  {
    FindFromFirst(s, p, 0);
  }

  /** Occurrences inside a slice are occurrences in the whole string. */
  lemma ContainsSlice(s: string, p: string, lo: nat, hi: nat)
    requires lo <= hi <= |s|
    requires Contains(s[lo..hi], p)
    ensures Contains(s, p)
  {
    var i :| 0 <= i <= hi - lo - |p| && OccursAt(s[lo..hi], p, i);
    var t := s[lo..hi];
    assert t[i..i + |p|] == p;
    assert forall k :: 0 <= k < |p| ==> p[k] == t[i + k] == s[lo + i + k];
    assert s[lo + i..lo + i + |p|] == p;
    assert OccursAt(s, p, lo + i);
  }

  /** Python's `str.isalnum()` on one character, restricted to ASCII */
  predicate IsAlnum(c: char)
  {
    ('a' <= c <= 'z') || ('A' <= c <= 'Z') || ('0' <= c <= '9')
  }

  /** The regular-expression class `\w`, restricted to ASCII */
  predicate IsWordChar(c: char)
  {
    IsAlnum(c) || c == '_'
  }

  /** `str.isspace()` and the regular-expression class `\s`, restricted to ASCII:
      space, \t, \n, \v, \f, \r and the separators \x1c to \x1f */
  predicate IsSpace(c: char)
  {
    c == ' ' || ('\t' <= c <= '\r') || (28 <= c as int <= 31)
  }

  /** `s.lstrip()` */
  function LStrip(s: string): (r: string)
    ensures |r| <= |s| && r == s[|s| - |r|..]
    ensures r != [] ==> !IsSpace(r[0])
  {
    if s != [] && IsSpace(s[0]) then LStrip(s[1..]) else s
  }

  /** `lstrip` removes whitespace only. */
  lemma {:induction false} LStripSpaces(s: string)
    ensures forall i :: 0 <= i < |s| - |LStrip(s)| ==> IsSpace(s[i])
  {
    if s != [] && IsSpace(s[0]) {
      LStripSpaces(s[1..]);
    }
  }

  /** `s.rstrip()` */
  function RStrip(s: string): (r: string)
    ensures |r| <= |s| && r == s[..|r|]
    ensures r != [] ==> !IsSpace(r[|r| - 1])
  {
    if s != [] && IsSpace(s[|s| - 1]) then RStrip(s[..|s| - 1]) else s
  }

  /** `rstrip` removes whitespace only. */
  lemma {:induction false} RStripSpaces(s: string)
    ensures forall i :: |RStrip(s)| <= i < |s| ==> IsSpace(s[i])
  {
    if s != [] && IsSpace(s[|s| - 1]) {
      RStripSpaces(s[..|s| - 1]);
    }
  }

  /** `s.strip()` */
  function Strip(s: string): (r: string)
  {
    RStrip(LStrip(s))
  }

  /** `s.strip()` removes whitespace only, and only at both ends: the result is a
      slice of `s` that neither starts nor ends with whitespace. */
  lemma StripIsTrimmedSlice(s: string)
    ensures exists lo, hi ::
              && 0 <= lo <= hi <= |s| && Strip(s) == s[lo..hi]
              && (forall i :: 0 <= i < lo ==> IsSpace(s[i]))
              && (forall i :: hi <= i < |s| ==> IsSpace(s[i]))
    ensures Strip(s) != [] ==> !IsSpace(Strip(s)[0]) && !IsSpace(Strip(s)[|Strip(s)| - 1])
  {
    StripCutsSpaces(s);
    StripEnds(s);
  }

  /** Only whitespace lies around the stripped text. */
  lemma StripCutsSpaces(s: string)
    ensures exists lo, hi ::
              && 0 <= lo <= hi <= |s| && Strip(s) == s[lo..hi]
              && (forall i :: 0 <= i < lo ==> IsSpace(s[i]))
              && (forall i :: hi <= i < |s| ==> IsSpace(s[i]))
  {
    var l := LStrip(s);
    LStripSpaces(s);
    RStripSpaces(l);
    var lo, hi := TrimmedSlice(s, l, RStrip(l));
  }

  /** The stripped text neither starts nor ends with whitespace. */
  lemma StripEnds(s: string)
    ensures Strip(s) != [] ==> !IsSpace(Strip(s)[0]) && !IsSpace(Strip(s)[|Strip(s)| - 1])
  {
    var l := LStrip(s);
    var r := RStrip(l);
    if r != [] {
      assert r[0] == l[0];
    }
  }

  /** A prefix `r` of a suffix `l` of `s`, with only whitespace cut off on either
      side, is a slice of `s` with only whitespace around it. */
  lemma TrimmedSlice(s: string, l: string, r: string) returns (lo: int, hi: int)
    requires |l| <= |s| && l == s[|s| - |l|..]
    requires |r| <= |l| && r == l[..|r|]
    requires forall i :: 0 <= i < |s| - |l| ==> IsSpace(s[i])
    requires forall i :: |r| <= i < |l| ==> IsSpace(l[i])
    ensures 0 <= lo <= hi <= |s| && r == s[lo..hi]
    ensures forall i :: 0 <= i < lo ==> IsSpace(s[i])
    ensures forall i :: hi <= i < |s| ==> IsSpace(s[i])
  {
    lo := |s| - |l|;
    hi := lo + |r|;
    assert r == s[lo..hi];
    forall i | hi <= i < |s|
      ensures IsSpace(s[i])
    {
      assert s[i] == l[i - lo];
    }
  }

  /** `s.replace(pat, rep)`: every occurrence of `pat`, scanned left to right
      without overlap, is replaced by `rep` */
  function ReplaceAll(s: string, pat: string, rep: string): (r: string)
    requires pat != []
    decreases |s|
  {
    if |s| < |pat| then s
    else if s[..|pat|] == pat then rep + ReplaceAll(s[|pat|..], pat, rep)
    else [s[0]] + ReplaceAll(s[1..], pat, rep)
  }

  /** Replacing a pattern that does not occur changes nothing. */
  lemma {:induction false} ReplaceAbsent(s: string, pat: string, rep: string)
    requires pat != [] && !Contains(s, pat)
    ensures ReplaceAll(s, pat, rep) == s
  {
    if |s| >= |pat| {
      assert !OccursAt(s, pat, 0);
      if Contains(s[1..], pat) {
        assert s[1..|s|] == s[1..];
        ContainsSlice(s, pat, 1, |s|);
        assert false;
      }
      ReplaceAbsent(s[1..], pat, rep);
    }
  }

  /** Replacing a pattern by itself changes nothing. */
  lemma {:induction false} ReplaceSame(s: string, pat: string)
    requires pat != []
    ensures ReplaceAll(s, pat, pat) == s
  {
    if |s| >= |pat| {
      if s[..|pat|] == pat {
        ReplaceSame(s[|pat|..], pat);
        assert s == s[..|pat|] + s[|pat|..];
      } else {
        ReplaceSame(s[1..], pat);
        assert s == [s[0]] + s[1..];
      }
    }
  }

  /** The first occurrence of `pat` is replaced: everything before it is kept,
      and the scan starts over right after it, so occurrences are replaced left
      to right without overlap. */
  lemma ReplaceFirst(s: string, pat: string, rep: string, i: nat)
    requires pat != [] && OccursAt(s, pat, i)
    requires forall j :: 0 <= j < i ==> !OccursAt(s, pat, j)
    ensures ReplaceAll(s, pat, rep) == s[..i] + rep + ReplaceAll(s[i + |pat|..], pat, rep)
  {
    ReplaceFrom(s, pat, rep, 0, i);
    assert s[0..] == s;
  }

  /** The scan from `from`, with no occurrence before `i`, keeps `s[from..i]`
      and replaces the occurrence at `i`. */
  lemma {:induction false} ReplaceFrom(s: string, pat: string, rep: string, from: nat, i: nat)
    requires pat != [] && from <= i && OccursAt(s, pat, i)
    requires forall j :: from <= j < i ==> !OccursAt(s, pat, j)
    ensures ReplaceAll(s[from..], pat, rep) == s[from..i] + rep + ReplaceAll(s[i + |pat|..], pat, rep)
    decreases i - from
  {
    if from == i {
      ReplaceHereAt(s, pat, rep, i);
      assert s[from..i] == [];
    } else {
      var rest := ReplaceAll(s[from + 1..], pat, rep);
      var tail := ReplaceAll(s[i + |pat|..], pat, rep);
      assert ReplaceAll(s[from..], pat, rep) == [s[from]] + rest by {
        ReplaceSkipAt(s, pat, rep, from);
      }
      assert rest == s[from + 1..i] + rep + tail by {
        ReplaceFrom(s, pat, rep, from + 1, i);
      }
      ConsSplit(s[from], s[from + 1..i], rep, tail, s[from..i]);
    }
  }

  lemma ConsSplit<T>(c: T, a: seq<T>, b: seq<T>, d: seq<T>, whole: seq<T>)
    requires [c] + a == whole
    ensures [c] + (a + b + d) == whole + b + d
  {
  }

  /** The scan at an occurrence replaces it. */
  lemma ReplaceHereAt(s: string, pat: string, rep: string, i: nat)
    requires pat != [] && OccursAt(s, pat, i)
    ensures ReplaceAll(s[i..], pat, rep) == rep + ReplaceAll(s[i + |pat|..], pat, rep)
  {
    var u := s[i..];
    assert u == pat + s[i + |pat|..];
    ReplaceLeading(pat, s[i + |pat|..], rep);
  }

  /** The scan away from an occurrence keeps the character. */
  lemma ReplaceSkipAt(s: string, pat: string, rep: string, from: nat)
    requires pat != [] && from + |pat| <= |s| && !OccursAt(s, pat, from)
    ensures ReplaceAll(s[from..], pat, rep) == [s[from]] + ReplaceAll(s[from + 1..], pat, rep)
  {
    var u := s[from..];
    assert u[..|pat|] == s[from..from + |pat|];
    assert u[1..] == s[from + 1..];
  }

  /** `s.replace(pat, rep)` in terms of `s.find(pat)`: no occurrence leaves `s`
      as it is; otherwise the text before the first occurrence is kept, `rep`
      takes the occurrence's place, and the rest is replaced in turn. */
  lemma ReplaceAtFind(s: string, pat: string, rep: string)
    requires pat != []
    ensures FindFrom(s, pat, 0).None? ==> ReplaceAll(s, pat, rep) == s
    ensures FindFrom(s, pat, 0).Some? ==>
              var i := FindFrom(s, pat, 0).value;
              ReplaceAll(s, pat, rep) == s[..i] + rep + ReplaceAll(s[i + |pat|..], pat, rep)
  {
    var f := FindFrom(s, pat, 0);
    if f.None? {
      ContainsIffFound(s, pat);
      ReplaceAbsent(s, pat, rep);
    } else {
      FindFromFirst(s, pat, 0);
      ReplaceFirst(s, pat, rep, f.value);
    }
  }

  /** An occurrence of `pat` that the scan reaches is replaced: when `s` is
      `pat` followed by `t`, the result is `rep` followed by the result for `t`. */
  lemma ReplaceLeading(pat: string, t: string, rep: string)
    requires pat != []
    ensures ReplaceAll(pat + t, pat, rep) == rep + ReplaceAll(t, pat, rep)
  {
    assert (pat + t)[..|pat|] == pat;
    assert (pat + t)[|pat|..] == t;
  }

  /** Only decimal digits */
  predicate DigitString(s: string)
  {
    forall i :: 0 <= i < |s| ==> '0' <= s[i] <= '9'
  }

  /** `int(s)` on a string of decimal digits */
  function DigitsValue(s: string): nat
    requires DigitString(s)
  {
    if s == [] then 0 else 10 * DigitsValue(s[..|s| - 1]) + (s[|s| - 1] as int - '0' as int)
  }

  /** Decimal digits of a natural number */
  function NatToString(n: nat): (r: string)
    ensures r != [] && DigitString(r)
    ensures n == 0 <==> r == "0"
    ensures r != "0" ==> r[0] != '0'
  {
    if n < 10 then [DigitChar(n)]
    else NatToString(n / 10) + [DigitChar(n % 10)]
  }

  function DigitChar(d: nat): (c: char)
    requires d < 10
    ensures '0' <= c <= '9' && (c == '0' <==> d == 0)
  {
    ('0' as int + d) as char
  }

  /** Reading the digits back gives the number: `int(str(n)) == n`. */
  lemma {:induction false} NatToStringValue(n: nat)
    ensures DigitsValue(NatToString(n)) == n
  {
    var r := NatToString(n);
    if n >= 10 {
      NatToStringValue(n / 10);
      assert r[..|r| - 1] == NatToString(n / 10);
    }
  }

  /** `str(n)` for a Python `int` */
  function IntToString(n: int): (r: string)
    ensures r != []
    ensures n < 0 <==> r[0] == '-'
  {
    if n < 0 then "-" + NatToString(-n) else NatToString(n)
  }

  /** Reading the sign and the digits back gives the number: `int(str(n)) == n`. */
  lemma IntToStringValue(n: int)
    ensures var r := IntToString(n);
      && (r[0] == '-' ==> DigitString(r[1..]) && DigitsValue(r[1..]) == -n)
      && (r[0] != '-' ==> DigitString(r) && DigitsValue(r) == n)
  {
    if n < 0 {
      NatToStringValue(-n);
      assert IntToString(n)[1..] == NatToString(-n);
    } else {
      NatToStringValue(n);
    }
  }
}
