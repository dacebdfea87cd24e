/** The compiler-version rewrite of `verifyContract` (src/verify.ts:86),
    a global, case-insensitive regular-expression replace.

    A match starts at "+commit." (ASCII letters in any case), continues with
    a non-empty run of hex digits and a ".", and then swallows the rest of
    the line. It is replaced by "+commit." and the hex digits, so the build
    metadata after the commit hash disappears. With the `g` flag the scan
    resumes after each match, that is at the next line terminator. */
module CommitVersion {
  import opened Text

  const Marker: string := "+commit."

  predicate IsHexDigit(c: char) {
    '0' <= c <= '9' || 'a' <= c <= 'f' || 'A' <= c <= 'F'
  }

  /** The characters that `.` does not match. */
  predicate IsLineTerminator(c: char) {
    c == '\n' || c == '\r' || c == '\U{2028}' || c == '\U{2029}'
  }

  /** The length of the longest prefix of hex digits. */
  function HexRun(s: string): (n: nat)
    ensures n <= |s|
    ensures forall i :: 0 <= i < n ==> IsHexDigit(s[i])
    ensures n < |s| ==> !IsHexDigit(s[n])
  {
    if s != [] && IsHexDigit(s[0]) then 1 + HexRun(s[1..]) else 0
  }

  /** The length of the longest prefix without a line terminator. */
  function LineLength(s: string): (n: nat)
    ensures n <= |s|
    ensures n < |s| ==> IsLineTerminator(s[n])
  {
    if s != [] && !IsLineTerminator(s[0]) then 1 + LineLength(s[1..]) else 0
  }

  /** `s` starts with "+commit." under the `i` flag. */
  predicate StartsWithMarker(s: string) {
    && |s| >= 8 && s[0] == '+' && LowerChar(s[1]) == 'c' && LowerChar(s[2]) == 'o'
    && LowerChar(s[3]) == 'm' && LowerChar(s[4]) == 'm' && LowerChar(s[5]) == 'i'
    && LowerChar(s[6]) == 't' && s[7] == '.'
  }

  /** The regular expression matches at the start of `s`. */
  predicate MatchesAt(s: string) {
    StartsWithMarker(s)
    && var h := HexRun(s[8..]);
    h > 0 && 8 + h < |s| && s[8 + h] == '.'
  }

  /** How many characters a match at the start of `s` consumes. */
  function MatchLength(s: string): (n: nat)
    requires MatchesAt(s)
    ensures n <= |s|
  {
    var h := HexRun(s[8..]);
    9 + h + LineLength(s[9 + h..])
  }

  /** The result of the global replace. It never lengthens the version:
      each match is replaced by a prefix of itself. */
  function Normalize(s: string): (r: string)
    ensures |r| <= |s|
    decreases |s|
  {
    if s == [] then []
    else if MatchesAt(s) then
      var h := HexRun(s[8..]);
      Marker + s[8..8 + h] + Normalize(s[MatchLength(s)..])
    else [s[0]] + Normalize(s[1..])
  }

  /** No position of `s` starts a match. */
  predicate NoMatch(s: string) {
    forall p :: 0 <= p <= |s| ==> !MatchesAt(s[p..])
  }

  /** A single-line version "<v>+commit.<hex>.<build>" whose <v> holds no
      '+' loses its build metadata and nothing else. */
  lemma StripsBuildMetadata(s: string, v: string, hex: string, build: string)
    requires s == v + Marker + hex + "." + build
    requires forall i :: 0 <= i < |v| ==> v[i] != '+'
    requires |hex| > 0 && forall i :: 0 <= i < |hex| ==> IsHexDigit(hex[i])
    requires forall i :: 0 <= i < |build| ==> !IsLineTerminator(build[i])
    ensures Normalize(s) == v + Marker + hex
  {
    var t := Marker + hex + "." + build;
    Regroup(s, v, hex, build);
    NormalizeAfterPlain(v, t);
    NormalizeAtMatch(t, hex, build);
  }

  lemma Regroup(s: string, v: string, hex: string, build: string)
    requires s == v + Marker + hex + "." + build
    ensures s == v + (Marker + hex + "." + build)
    ensures v + Marker + hex == v + (Marker + hex)
  {
  }

  /** The example of the build metadata Solidity appends. */
  lemma NormalizeExample(s: string)
    requires s == "0.8.4+commit.c7e474f2.Linux.gcc"
    ensures Normalize(s) == "0.8.4+commit.c7e474f2"
  {
    var v, hex, build := "0.8.4", "c7e474f2", "Linux.gcc";
    ExampleParts(s, v, hex, build);
    StripsBuildMetadata(s, v, hex, build);
  }

  lemma ExampleParts(s: string, v: string, hex: string, build: string)
    requires s == "0.8.4+commit.c7e474f2.Linux.gcc"
    requires v == "0.8.4" && hex == "c7e474f2" && build == "Linux.gcc"
    ensures s == v + Marker + hex + "." + build
    ensures v + Marker + hex == "0.8.4+commit.c7e474f2"
    ensures forall i :: 0 <= i < |v| ==> v[i] != '+'
    ensures |hex| > 0 && forall i :: 0 <= i < |hex| ==> IsHexDigit(hex[i])
    ensures forall i :: 0 <= i < |build| ==> !IsLineTerminator(build[i])
  {
    assert v + Marker == "0.8.4+commit.";
  }

  /** A prefix without '+' is copied unchanged. */
  lemma {:induction false} NormalizeAfterPlain(v: string, t: string)
    requires forall i :: 0 <= i < |v| ==> v[i] != '+'
    ensures Normalize(v + t) == v + Normalize(t)
  {
    if v == [] {
      assert v + t == t;
    } else {
      var w := v + t;
      assert w[0] == v[0] && w[1..] == v[1..] + t;
      NormalizeCons(w);
      NormalizeAfterPlain(v[1..], t);
      calc {
        Normalize(v + t);
        [v[0]] + Normalize(v[1..] + t);
        [v[0]] + (v[1..] + Normalize(t));
        { assert [v[0]] + v[1..] == v; }
        v + Normalize(t);
      }
    }
  }

  /** A string that does not start with '+' does not match at its start. */
  lemma NormalizeCons(s: string)
    requires s != [] && s[0] != '+'
    ensures Normalize(s) == [s[0]] + Normalize(s[1..])
  {
  }

  /** A match that runs to the end of the string leaves just the marker and
      the hex digits. */
  lemma NormalizeAtMatch(t: string, hex: string, build: string)
    requires t == Marker + hex + "." + build
    requires |hex| > 0 && forall i :: 0 <= i < |hex| ==> IsHexDigit(hex[i])
    requires forall i :: 0 <= i < |build| ==> !IsLineTerminator(build[i])
    ensures Normalize(t) == Marker + hex
  {
    var h := |hex|;
    MarkerThenHex(t, hex, "." + build);
    assert t[9 + h..] == build;
    LineLengthNoTerminator(build);
    assert MatchLength(t) == |t|;
    assert t[|t|..] == [];
  }

  /** The parts of a string that starts with the marker and a hex run. */
  lemma MarkerThenHex(t: string, hex: string, after: string)
    requires t == Marker + hex + after
    requires forall i :: 0 <= i < |hex| ==> IsHexDigit(hex[i])
    requires after != [] ==> !IsHexDigit(after[0])
    ensures StartsWithMarker(t) && HexRun(t[8..]) == |hex|
    ensures t[8..8 + |hex|] == hex && t[8 + |hex|..] == after
  {
    assert t[8..] == hex + after;
    HexRunOfPrefix(hex, after);
  }

  lemma {:induction false} LineLengthNoTerminator(s: string)
    requires forall i :: 0 <= i < |s| ==> !IsLineTerminator(s[i])
    ensures LineLength(s) == |s|
  {
    if s != [] {
      LineLengthNoTerminator(s[1..]);
    }
  }

  /** A version without build metadata after the commit hash is left
      unchanged. */
  lemma {:induction false} NormalizeUnchanged(s: string)
    requires NoMatch(s)
    ensures Normalize(s) == s
    decreases |s|
  {
    if s != [] {
      assert !MatchesAt(s[0..]);
      assert s[0..] == s;
      assert NoMatch(s[1..]) by {
        forall p | 0 <= p <= |s[1..]|
          ensures !MatchesAt(s[1..][p..])
        {
          assert s[1..][p..] == s[1 + p..];
        }
      }
      NormalizeUnchanged(s[1..]);
    }
  }

  /** Normalizing twice is normalizing once. */
  lemma NormalizeIdempotent(s: string)
    ensures Normalize(Normalize(s)) == Normalize(s)
  {
    NormalizeLeavesNoMatch(s);
    NormalizeUnchanged(Normalize(s));
  }

  /** No match is left in the result. */
  lemma {:induction false} NormalizeLeavesNoMatch(s: string)
    ensures NoMatch(Normalize(s))
    decreases |s|
  {
    if s == [] {
      assert !MatchesAt([]);
    } else if MatchesAt(s) {
      var h := HexRun(s[8..]);
      var rest := s[MatchLength(s)..];
      NormalizeLeavesNoMatch(rest);
      assert rest != [] ==> IsLineTerminator(rest[0]) by {
        var line := s[9 + h..];
        assert rest == line[LineLength(line)..];
      }
      var tail := Normalize(rest);
      if rest != [] {
        NormalizeCons(rest);
      }
      NoMatchAfterMarker(s[8..8 + h], tail);
    } else {
      NormalizeLeavesNoMatch(s[1..]);
      NoNewMatchAtStart(s);
      NoMatchCons(s[0], Normalize(s[1..]));
    }
  }

  lemma NoMatchCons(c: char, t: string)
    requires NoMatch(t) && !MatchesAt([c] + t)
    ensures NoMatch([c] + t)
  {
    forall p | 0 <= p <= |t| + 1
      ensures !MatchesAt(([c] + t)[p..])
    {
      if p == 0 {
        assert ([c] + t)[0..] == [c] + t;
      } else {
        assert ([c] + t)[p..] == t[p - 1..];
      }
    }
  }

  /** What replaces a match starts no new match, as long as it is followed
      by a line terminator or by nothing. */
  lemma NoMatchAfterMarker(hex: string, tail: string)
    requires |hex| > 0 && forall i :: 0 <= i < |hex| ==> IsHexDigit(hex[i])
    requires tail != [] ==> IsLineTerminator(tail[0])
    requires NoMatch(tail)
    ensures NoMatch(Marker + hex + tail)
  {
    var head := Marker + hex;
    var out := head + tail;
    assert out == Marker + hex + tail;
    forall p | 0 <= p <= |out|
      ensures !MatchesAt(out[p..])
    {
      if p == 0 {
        assert out[0..][8..] == hex + tail;
        HexRunOfPrefix(hex, tail);
      } else if p < |head| {
        assert out[p..][0] == head[p];
        assert head[p] != '+';
      } else {
        assert out[p..] == tail[p - |head|..];
      }
    }
  }

  /** A run of hex digits followed by something that is not a hex digit (or
      by nothing) is the whole hex run. */
  lemma HexRunOfPrefix(hex: string, after: string)
    requires forall i :: 0 <= i < |hex| ==> IsHexDigit(hex[i])
    requires after != [] ==> !IsHexDigit(after[0])
    ensures HexRun(hex + after) == |hex|
    ensures after != [] ==> (hex + after)[|hex|] == after[0]
  {
  }

  /** Normalizing a string changes nothing before its first '+', and keeps
      a '+' at the position of that first '+'. */
  lemma {:induction false} NormalizeKeepsPrefix(u: string, q: nat)
    requires q <= |u|
    requires forall i :: 0 <= i < q ==> u[i] != '+'
    ensures |Normalize(u)| >= q && Normalize(u)[..q] == u[..q]
    ensures q < |u| && u[q] == '+' ==> |Normalize(u)| > q && Normalize(u)[q] == '+'
    decreases q
  {
    if q == 0 {
      if q < |u| && u[q] == '+' {
        if !MatchesAt(u) {
          assert Normalize(u) == [u[0]] + Normalize(u[1..]);
        }
      }
    } else {
      assert !MatchesAt(u) by {
        assert u[0] != '+';
        assert LowerChar(u[0]) != '+';
      }
      assert Normalize(u) == [u[0]] + Normalize(u[1..]);
      NormalizeKeepsPrefix(u[1..], q - 1);
    }
  }

  /** A string without '+' is its own normalization. */
  lemma NormalizeWithoutPlus(u: string)
    requires forall i :: 0 <= i < |u| ==> u[i] != '+'
    ensures Normalize(u) == u
  {
    NormalizeKeepsPrefix(u, |u|);
    assert NoMatch(u) by {
      forall p | 0 <= p <= |u|
        ensures !MatchesAt(u[p..])
      {
        if p < |u| {
          assert u[p..][0] == u[p];
          assert LowerChar(u[p]) != '+';
        }
      }
    }
    NormalizeUnchanged(u);
  }

  /** When `s` does not match at its start, the string that keeps its first
      character and normalizes the rest does not match there either. */
  lemma NoNewMatchAtStart(s: string)
    requires s != [] && !MatchesAt(s)
    ensures !MatchesAt([s[0]] + Normalize(s[1..]))
  {
    var u := s[1..];
    var out := [s[0]] + Normalize(u);
    if s[0] != '+' {
      assert out[0] != '+';
    } else {
      var q := FirstPlus(u);
      if q < 7 {
        NoNewMatchEarlyPlus(s, q);
      } else {
        NoNewMatchLatePlus(s, q);
      }
    }
  }

  /** A '+' among the seven characters after the first one rules out the
      marker. */
  lemma NoNewMatchEarlyPlus(s: string, q: nat)
    requires s != [] && q == FirstPlus(s[1..]) && q < 7
    ensures !MatchesAt([s[0]] + Normalize(s[1..]))
  {
    var u := s[1..];
    var out := [s[0]] + Normalize(u);
    NormalizeKeepsPrefix(u, q);
    if q < |u| {
      assert out[q + 1] == '+';
    } else {
      assert |out| < 8;
    }
  }

  /** Otherwise the first eight characters are those of `s`, and so is the
      hex run after them, up to a character that cannot continue a match. */
  lemma NoNewMatchLatePlus(s: string, q: nat)
    requires s != [] && !MatchesAt(s) && s[0] == '+'
    requires q == FirstPlus(s[1..]) && q >= 7
    ensures !MatchesAt([s[0]] + Normalize(s[1..]))
  {
    var u := s[1..];
    var out := [s[0]] + Normalize(u);
    NormalizeKeepsPrefix(u, 7);
    assert out[..8] == s[..8];
    if StartsWithMarker(s) {
      var h := HexRun(s[8..]);
      assert q >= 7 + h;
      if 7 + h == |u| {
        NormalizeWithoutPlus(u);
        assert out == s;
      } else {
        NoNewMatchAfterHex(s, h);
      }
    } else {
      assert !StartsWithMarker(out) by {
        assert forall i :: 0 <= i < 8 ==> out[i] == s[i];
      }
    }
  }

  /** The hex run of `s` ends before its last character: the normalized
      rest keeps the run and puts either '+' or the same character after
      it. */
  lemma NoNewMatchAfterHex(s: string, h: nat)
    requires s != [] && !MatchesAt(s) && s[0] == '+' && StartsWithMarker(s)
    requires h == HexRun(s[8..]) && 8 + h < |s|
    requires FirstPlus(s[1..]) >= 7 + h
    ensures !MatchesAt([s[0]] + Normalize(s[1..]))
  {
    HexRunAt(s, h);
    var u, out := s[1..], [s[0]] + Normalize(s[1..]);
    assert u[7 + h] == s[8 + h];
    if s[8 + h] == '+' {
      NormalizeKeepsPrefix(u, 7 + h);
      ConsAgrees(s, Normalize(u), 7 + h);
      assert out[8 + h] == '+';
    } else {
      NormalizeKeepsPrefix(u, 8 + h);
      ConsAgrees(s, Normalize(u), 8 + h);
    }
    NoMatchAtHexEnd(out, h);
  }

  /** Putting back the first character of `s` in front of a text that
      agrees with the rest of `s` on `m` characters gives a text that
      agrees with `s` on `m + 1`. */
  lemma ConsAgrees(s: string, n: string, m: nat)
    requires m < |s| && m <= |n| && n[..m] == s[1..][..m]
    ensures |[s[0]] + n| > m
    ensures forall i :: 0 <= i <= m ==> ([s[0]] + n)[i] == s[i]
  {
    forall i | 1 <= i <= m
      ensures ([s[0]] + n)[i] == s[i]
    {
      assert n[..m][i - 1] == s[1..][..m][i - 1];
    }
  }

  /** The hex run after the marker, by position in `s`. */
  lemma HexRunAt(s: string, h: nat)
    requires 8 <= |s| && h == HexRun(s[8..]) && 8 + h < |s|
    ensures forall i :: 8 <= i < 8 + h ==> IsHexDigit(s[i])
    ensures !IsHexDigit(s[8 + h])
  {
    forall i | 8 <= i < 8 + h
      ensures IsHexDigit(s[i])
    {
      assert s[i] == s[8..][i - 8];
    }
    assert s[8 + h] == s[8..][h];
  }

  /** A string whose hex run after the marker has length `h` and is followed
      by a character other than '.' does not match (nor when `h` is 0). */
  lemma NoMatchAtHexEnd(t: string, h: nat)
    requires 8 + h < |t|
    requires forall i :: 8 <= i < 8 + h ==> IsHexDigit(t[i])
    requires !IsHexDigit(t[8 + h])
    requires h == 0 || t[8 + h] != '.'
    ensures !MatchesAt(t)
  {
    assert t[8..] == t[8..8 + h] + t[8 + h..];
    if h > 0 {
      HexRunOfPrefix(t[8..8 + h], t[8 + h..]);
    }
  }

  /** The position of the first '+' in `u`, or `|u|`. */
  function FirstPlus(u: string): (q: nat)
    ensures q <= |u|
    ensures forall i :: 0 <= i < q ==> u[i] != '+'
    ensures q < |u| ==> u[q] == '+'
  {
    if u == [] || u[0] == '+' then 0 else 1 + FirstPlus(u[1..])
  }
}
