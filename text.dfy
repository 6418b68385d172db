/** Optional values, the model's stand-in for PHP's `null`. */
module Wrappers {
  datatype Option<T> = None | Some(value: T) {
    /** PHP's `$x ?? default`. */
    function GetOr(default: T): T {
      match this
      case Some(v) => v
      case None => default
    }
  }
}

/**
 * The PHP string functions the core relies on: ASCII case mapping
 * (`strtoupper`, `strtolower` and `ucfirst` are locale-independent and
 * ASCII-only since PHP 8.2), `explode`/`implode` on one separator,
 * `explode($sep, $s, 2)`, `str_replace` of one character, `strpos(...) === 0`
 * and PHP's truthiness of strings.
 */
module Text {
  import opened Wrappers

  function UpperChar(c: char): char {
    if 'a' <= c <= 'z' then (c as int - 32) as char else c
  }

  function LowerChar(c: char): char {
    if 'A' <= c <= 'Z' then (c as int + 32) as char else c
  }

  /** `strtoupper`. */
  function Upper(s: string): (r: string)
    ensures |r| == |s|
  {
    if s == [] then [] else [UpperChar(s[0])] + Upper(s[1..])
  }

  /** `strtolower`. */
  function Lower(s: string): (r: string)
    ensures |r| == |s|
  {
    if s == [] then [] else [LowerChar(s[0])] + Lower(s[1..])
  }

  /** `ucfirst`. */
  function UcFirst(s: string): string {
    if s == [] then [] else [UpperChar(s[0])] + s[1..]
  }

  /** `strpos($s, $prefix) === 0`. */
  predicate StartsWith(s: string, prefix: string) {
    |prefix| <= |s| && s[..|prefix|] == prefix
  }

  /** `part` occurs somewhere in `s`. */
  predicate Contains(s: string, part: string) {
    exists i :: 0 <= i <= |s| - |part| && StartsWith(s[i..], part)
  }

  /** PHP's truthiness of a string: only "" and "0" are false. */
  predicate Truthy(s: string) {
    s != "" && s != "0"
  }

  /** `explode($sep, $s)`: the pieces between separators, at least one. */
  function Explode(s: string, sep: char): (parts: seq<string>)
    ensures |parts| >= 1
    decreases |s|
  {
    if s == [] then [""]
    else
      var rest := Explode(s[1..], sep);
      if s[0] == sep then [""] + rest else [[s[0]] + rest[0]] + rest[1..]
  }

  /** `implode($sep, $parts)`. */
  function Join(parts: seq<string>, sep: string): string {
    if |parts| == 0 then ""
    else if |parts| == 1 then parts[0]
    else parts[0] + sep + Join(parts[1..], sep)
  }

  /** `implode` with a one-character separator. */
  function Implode(parts: seq<string>, sep: char): string {
    Join(parts, [sep])
  }

  /** The characters PHP's `trim` strips. */
  predicate TrimmedChar(c: char) {
    c == ' ' || c == '\t' || c == '\n' || c == '\r' || c == '\0' || c == '\U{B}'
  }

  /** `trim($s) === ''`. */
  predicate Blank(s: string) {
    forall i :: 0 <= i < |s| ==> TrimmedChar(s[i])
  }

  /** `str_replace($from, $to, $s)` for single characters. */
  function Replace(s: string, from: char, to: char): (r: string)
    ensures |r| == |s|
  {
    if s == [] then [] else [if s[0] == from then to else s[0]] + Replace(s[1..], from, to)
  }

  /** Index of the first `sep` in `s`, when there is one. */
  function FirstIndexOf(s: string, sep: char): (r: Option<nat>)
    ensures r.Some? ==> r.value < |s| && s[r.value] == sep && sep !in s[..r.value]
    ensures r.None? ==> sep !in s
  {
    if s == [] then None
    else if s[0] == sep then Some(0)
    else match FirstIndexOf(s[1..], sep)
      case None => None
      case Some(i) => assert s[1..][..i] == s[1..i + 1]; Some(i + 1)
  }

  /**
   * `explode($sep, $s, 2)` when it yields two parts: the text before the
   * first separator and everything after it.
   */
  function SplitFirst(s: string, sep: char): Option<(string, string)> {
    match FirstIndexOf(s, sep)
    case None => None
    case Some(i) => Some((s[..i], s[i + 1..]))
  }

  /** The split is absent exactly without a separator; otherwise it cuts at the first one. */
  lemma SplitFirstSpec(s: string, sep: char)
    ensures SplitFirst(s, sep).None? <==> sep !in s
    ensures var r := SplitFirst(s, sep); r.Some? ==> s == r.value.0 + [sep] + r.value.1 && sep !in r.value.0
  {
    match FirstIndexOf(s, sep)
    case None =>
    case Some(i) =>
      assert s == s[..i] + [sep] + s[i + 1..];
  }

  // ---------------------------------------------------------------------
  // Lemmas

  lemma {:induction false} ImplodeExplode(s: string, sep: char)
    ensures Implode(Explode(s, sep), sep) == s
    decreases |s|
  {
    if s != [] {
      var rest := Explode(s[1..], sep);
      ImplodeExplode(s[1..], sep);
      if s[0] == sep {
        assert Explode(s, sep) == [""] + rest;
        assert ([""] + rest)[1..] == rest;
      } else {
        ImplodeCons(s[0], rest, sep);
      }
    }
  }

  /** Prepending a character to the first piece prepends it to the joined text. */
  lemma ImplodeCons(c: char, parts: seq<string>, sep: char)
    requires |parts| >= 1
    ensures Implode([[c] + parts[0]] + parts[1..], sep) == [c] + Implode(parts, sep)
  {
    var ps := [[c] + parts[0]] + parts[1..];
    if |parts| > 1 {
      assert ps[1..] == parts[1..];
    }
  }

  lemma {:induction false} ExplodeNoSeparator(s: string, sep: char)
    ensures forall i :: 0 <= i < |Explode(s, sep)| ==> sep !in Explode(s, sep)[i]
    decreases |s|
  {
    if s != [] {
      ExplodeNoSeparator(s[1..], sep);
    }
  }

  /** Splitting a text without a separator yields the text itself. */
  lemma {:induction false} ExplodeSingle(s: string, sep: char)
    requires sep !in s
    ensures Explode(s, sep) == [s]
    decreases |s|
  {
    if s != [] {
      assert sep !in s[1..] by {
        forall i | 0 <= i < |s[1..]| ensures s[1..][i] != sep { assert s[1..][i] == s[i + 1]; }
      }
      ExplodeSingle(s[1..], sep);
      assert [s[0]] + s[1..] == s;
    }
  }

  /** One step of `Explode`, for a string that does not start with the separator. */
  lemma ExplodeCons(c: char, t: string, sep: char)
    requires c != sep
    ensures var r := Explode(t, sep); Explode([c] + t, sep) == [[c] + r[0]] + r[1..]
  {
    assert ([c] + t)[1..] == t;
  }

  /** Extending the first piece commutes with appending further pieces. */
  lemma ExtendFirst(c: char, ra: seq<string>, eb: seq<string>)
    requires |ra| >= 1
    ensures [[c] + (ra + eb)[0]] + (ra + eb)[1..] == ([[c] + ra[0]] + ra[1..]) + eb
  {
    assert (ra + eb)[1..] == ra[1..] + eb;
  }

  /** Splitting `a + sep + b` splits `a` and `b` separately. */
  lemma {:induction false} ExplodeJoin(a: string, b: string, sep: char)
    ensures Explode(a + [sep] + b, sep) == Explode(a, sep) + Explode(b, sep)
    decreases |a|
  {
    var s := a + [sep] + b;
    if a == [] {
      assert s == [sep] + b;
      assert s[1..] == b;
    } else {
      var t := a[1..] + [sep] + b;
      assert s == [a[0]] + t;
      assert a == [a[0]] + a[1..];
      ExplodeJoin(a[1..], b, sep);
      if a[0] == sep {
        assert s[1..] == t;
      } else {
        ExplodeCons(a[0], t, sep);
        ExplodeCons(a[0], a[1..], sep);
        ExtendFirst(a[0], Explode(a[1..], sep), Explode(b, sep));
      }
    }
  }

  /**
   * Joining the split pieces with another separator is replacing the
   * separator character: `implode($to, explode($from, $s)) == str_replace($from, $to, $s)`.
   */
  lemma {:induction false} ImplodeExplodeReplace(s: string, from: char, to: char)
    ensures Implode(Explode(s, from), to) == Replace(s, from, to)
    decreases |s|
  {
    if s != [] {
      var rest := Explode(s[1..], from);
      ImplodeExplodeReplace(s[1..], from, to);
      if s[0] == from {
        assert Explode(s, from) == [""] + rest;
        assert ([""] + rest)[1..] == rest;
      } else {
        ImplodeCons(s[0], rest, to);
      }
    }
  }

  /** Joining a prefix of the pieces, then the remaining ones, gives the whole. */
  lemma {:induction false} ImplodeSplitAt(parts: seq<string>, k: nat, sep: char)
    requires 1 <= k < |parts|
    ensures Implode(parts, sep) == Implode(parts[..k], sep) + [sep] + Implode(parts[k..], sep)
    decreases k
  {
    if k > 1 {
      ImplodeSplitAt(parts[1..], k - 1, sep);
      assert parts[1..][..k - 1] == parts[..k][1..];
      assert parts[1..][k - 1..] == parts[k..];
    } else {
      assert parts[..1] == [parts[0]];
      assert parts[1..] == parts[k..];
    }
  }

  /** Number of occurrences of a character. */
  function Count(s: string, c: char): nat {
    if s == [] then 0 else (if s[0] == c then 1 else 0) + Count(s[1..], c)
  }

  lemma {:induction false} CountAppend(a: string, b: string, c: char)
    ensures Count(a + b, c) == Count(a, c) + Count(b, c)
    decreases |a|
  {
    if a != [] {
      assert (a + b)[0] == a[0];
      assert (a + b)[1..] == a[1..] + b;
      CountAppend(a[1..], b, c);
    } else {
      assert a + b == b;
    }
  }

  lemma {:induction false} CountAbsent(s: string, c: char)
    requires c !in s
    ensures Count(s, c) == 0
    decreases |s|
  {
    if s != [] {
      assert c !in s[1..] by {
        forall i | 0 <= i < |s[1..]| ensures s[1..][i] != c { assert s[1..][i] == s[i + 1]; }
      }
      CountAbsent(s[1..], c);
    }
  }

  /** Joining `n >= 1` separator-free pieces puts exactly `n - 1` separators in the text. */
  lemma {:induction false} ImplodeCount(parts: seq<string>, sep: char)
    requires |parts| >= 1
    requires forall i :: 0 <= i < |parts| ==> sep !in parts[i]
    ensures Count(Implode(parts, sep), sep) == |parts| - 1
    decreases |parts|
  {
    CountAbsent(parts[0], sep);
    if |parts| > 1 {
      ImplodeCount(parts[1..], sep);
      CountAppend(parts[0] + [sep], Implode(parts[1..], sep), sep);
      CountAppend(parts[0], [sep], sep);
      assert Count([sep], sep) == 1 by { assert [sep][1..] == []; }
    }
  }
}
