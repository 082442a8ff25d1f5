/** String primitives the engine relies on: Ruby's character classes, literal search,
    `String#gsub(String, String)`, `String#split(String)`, ASCII `downcase`, and the
    `"%x"` rendering of an object id. */
module Strings {
  import opened Wrappers

  /** `\w` in a Ruby regexp: ASCII letters, digits and the underscore. */
  predicate IsWordChar(c: char) {
    ('a' <= c <= 'z') || ('A' <= c <= 'Z') || ('0' <= c <= '9') || c == '_'
  }

  /** `\h` in a Ruby regexp. */
  predicate IsHexChar(c: char) {
    ('0' <= c <= '9') || ('a' <= c <= 'f') || ('A' <= c <= 'F')
  }

  predicate IsWord(s: string) {
    |s| > 0 && forall k {:trigger IsWordChar(s[k])} :: 0 <= k < |s| ==> IsWordChar(s[k])
  }

  predicate IsHex(s: string) {
    |s| > 0 && forall k {:trigger IsHexChar(s[k])} :: 0 <= k < |s| ==> IsHexChar(s[k])
  }

  /** `lit` occurs in `s` starting at position `i`. */
  predicate StartsAt(s: string, i: nat, lit: string) {
    i + |lit| <= |s| && forall k {:trigger lit[k]} :: 0 <= k < |lit| ==> s[i + k] == lit[k]
  }

  /** StartsAt is the slice of `s` at `i` being `lit`. */
  lemma StartsAtSlice(s: string, i: nat, lit: string)
    ensures StartsAt(s, i, lit) <==> i + |lit| <= |s| && s[i..i + |lit|] == lit
  {
    if i + |lit| <= |s| && s[i..i + |lit|] == lit {
      forall k | 0 <= k < |lit| ensures s[i + k] == lit[k] {
        assert s[i..i + |lit|][k] == s[i + k];
      }
    }
  }

  predicate Occurs(s: string, lit: string) {
    exists k: nat | k <= |s| :: StartsAt(s, k, lit)
  }

  /** The first position at or after `from` where `lit` starts. */
  function Find(s: string, from: nat, lit: string): (r: Option<nat>)
    ensures r.Some? ==> from <= r.value && r.value + |lit| <= |s|
    decreases |s| - from
  {
    if from + |lit| > |s| then None
    else if s[from..from + |lit|] == lit then Some(from)
    else Find(s, from + 1, lit)
  }

  /** What Find returns is an occurrence. */
  lemma {:induction false} FindFound(s: string, from: nat, lit: string)
    requires Find(s, from, lit).Some?
    ensures StartsAt(s, Find(s, from, lit).value, lit)
    decreases |s| - from
  {
    if s[from..from + |lit|] != lit {
      FindFound(s, from + 1, lit);
    }
  }

  /** Find returns the first occurrence: `lit` starts nowhere between `from` and it. */
  lemma {:induction false} FindFirst(s: string, from: nat, lit: string, k: nat)
    requires from <= k && (Find(s, from, lit).None? || k < Find(s, from, lit).value)
    ensures !StartsAt(s, k, lit)
    decreases |s| - from
  {
    if from < k && from + |lit| <= |s| {
      FindFirst(s, from + 1, lit, k);
    }
  }

  /** Ruby's `s.gsub(pat, rep)` for a literal, non-empty `pat`: every non-overlapping
      occurrence, scanned left to right, is replaced by `rep`. */
  function Replace(s: string, pat: string, rep: string): string
    requires |pat| > 0
    decreases |s|
  {
    match Find(s, 0, pat)
    case None => s
    case Some(k) => s[..k] + rep + Replace(s[k + |pat|..], pat, rep)
  }

  /** The pieces of `s` between the non-overlapping occurrences of `sep` (the independent
      reference for both Replace and split). */
  function Fields(s: string, sep: string): (r: seq<string>)
    requires |sep| > 0
    ensures |r| > 0
    decreases |s|
  {
    match Find(s, 0, sep)
    case None => [s]
    case Some(k) => [s[..k]] + Fields(s[k + |sep|..], sep)
  }

  function Join(parts: seq<string>, sep: string): string {
    if |parts| == 0 then ""
    else if |parts| == 1 then parts[0]
    else parts[0] + sep + Join(parts[1..], sep)
  }

  lemma {:induction false} JoinCons(p: string, rest: seq<string>, sep: string)
    requires |rest| > 0
    ensures Join([p] + rest, sep) == p + sep + Join(rest, sep)
  {
    assert ([p] + rest)[1..] == rest;
  }

  /** Splitting on `sep` and joining the pieces back with `sep` gives the string back. */
  lemma {:induction false} JoinFields(s: string, sep: string)
    requires |sep| > 0
    ensures Join(Fields(s, sep), sep) == s
    decreases |s|
  {
    match Find(s, 0, sep)
    case None =>
    case Some(k) =>
      var rest := s[k + |sep|..];
      FindFound(s, 0, sep);
      JoinFields(rest, sep);
      JoinCons(s[..k], Fields(rest, sep), sep);
      assert s[k..k + |sep|] == sep;
      assert s == s[..k] + s[k..k + |sep|] + rest;
  }

  /** An occurrence at or after `from` means Find finds one, no later than that occurrence. */
  lemma {:induction false} FindExists(s: string, from: nat, lit: string, k: nat)
    requires from <= k && StartsAt(s, k, lit)
    ensures Find(s, from, lit).Some? && Find(s, from, lit).value <= k
    decreases k - from
  {
    if from < k && s[from..from + |lit|] != lit {
      FindExists(s, from + 1, lit, k);
    }
  }

  /** Replace is the same as splitting on the pattern and joining with the replacement. */
  lemma {:induction false} ReplaceIsJoinOfFields(s: string, pat: string, rep: string)
    requires |pat| > 0
    ensures Replace(s, pat, rep) == Join(Fields(s, pat), rep)
    decreases |s|
  {
    match Find(s, 0, pat)
    case None =>
    case Some(k) =>
      var rest := s[k + |pat|..];
      ReplaceIsJoinOfFields(rest, pat, rep);
      JoinCons(s[..k], Fields(rest, pat), rep);
  }

  /** A string that does not contain the pattern is left alone by Replace. */
  lemma ReplaceAbsent(s: string, pat: string, rep: string)
    requires |pat| > 0 && !Occurs(s, pat)
    ensures Replace(s, pat, rep) == s
  {
    if Find(s, 0, pat).Some? {
      FindFound(s, 0, pat);
      assert false;
    }
  }

  /** Find of a one-character literal stops at the first position holding that character. */
  lemma {:induction false} FindChar(s: string, from: nat, c: char, n: nat)
    requires from <= n <= |s| && forall i :: from <= i < n ==> s[i] != c
    ensures n < |s| && s[n] == c ==> Find(s, from, [c]) == Some(n)
    ensures n == |s| ==> Find(s, from, [c]).None?
    decreases n - from
  {
    if from < n {
      assert s[from..from + 1] != [c] by { assert s[from..from + 1][0] == s[from]; }
      FindChar(s, from + 1, c, n);
    } else if n < |s| && s[n] == c {
      assert s[n..n + 1] == [c];
    }
  }

  /** Pieces free of a one-character separator come back from Fields of their join. */
  lemma {:induction false} FieldsOfJoin(parts: seq<string>, c: char)
    requires |parts| > 0 && forall k :: 0 <= k < |parts| ==> c !in parts[k]
    ensures Fields(Join(parts, [c]), [c]) == parts
    decreases |parts|
  {
    var p := parts[0];
    if |parts| == 1 {
      FindChar(p, 0, c, |p|);
    } else {
      var rest := parts[1..];
      var s := Join(parts, [c]);
      assert s == p + [c] + Join(rest, [c]);
      FindChar(s, 0, c, |p|);
      assert s[..|p|] == p && s[|p| + 1..] == Join(rest, [c]);
      FieldsOfJoin(rest, c);
    }
  }

  /** Removes the empty strings at the end, as Ruby's `split` does. */
  function DropTrailingEmpty(parts: seq<string>): (r: seq<string>)
    ensures |r| <= |parts| && r == parts[..|r|]
    ensures |r| > 0 ==> r[|r| - 1] != ""
    ensures forall k :: |r| <= k < |parts| ==> parts[k] == ""
  {
    if |parts| > 0 && parts[|parts| - 1] == "" then DropTrailingEmpty(parts[..|parts| - 1])
    else parts
  }

  function Chars(s: string): (r: seq<string>)
    ensures |r| == |s| && forall k :: 0 <= k < |s| ==> r[k] == [s[k]]
  {
    if s == [] then [] else [[s[0]]] + Chars(s[1..])
  }

  /** Ruby's `s.split(sep)` for a String separator other than a single space (which Ruby
      treats as "split on runs of whitespace"): the pieces between occurrences, with the
      trailing empty pieces removed; an empty separator splits into characters. */
  function Split(s: string, sep: string): seq<string> {
    if sep == "" then Chars(s) else DropTrailingEmpty(Fields(s, sep))
  }

  function DowncaseChar(c: char): char {
    if 'A' <= c <= 'Z' then (c as int - 'A' as int + 'a' as int) as char else c
  }

  /** `String#downcase` on ASCII letters. */
  function Downcase(s: string): (r: string)
    ensures |r| == |s| && forall k :: 0 <= k < |s| ==> r[k] == DowncaseChar(s[k])
  {
    if s == [] then [] else [DowncaseChar(s[0])] + Downcase(s[1..])
  }

  function HexDigit(d: nat): (c: char)
    requires d < 16
    ensures IsHexChar(c) && c != '$' && c != '@'
  {
    if d < 10 then ('0' as int + d) as char else ('a' as int + d - 10) as char
  }

  /** `"%x" % n`. */
  function Hex(n: nat): (r: string)
    ensures IsHex(r)
  {
    if n < 16 then [HexDigit(n)] else Hex(n / 16) + [HexDigit(n % 16)]
  }

  lemma HexLength(n: nat)
    ensures n >= 16 ==> |Hex(n)| >= 2
  {
  }

  /** Distinct numbers have distinct hexadecimal renderings. */
  lemma {:induction false} HexInjective(a: nat, b: nat)
    requires Hex(a) == Hex(b)
    ensures a == b
    decreases a + b
  {
    if a < 16 && b < 16 {
      assert Hex(a)[0] == HexDigit(a) && Hex(b)[0] == HexDigit(b);
    } else if a < 16 {
      HexLength(b);
    } else if b < 16 {
      HexLength(a);
    } else {
      var ha, hb := Hex(a / 16), Hex(b / 16);
      assert Hex(a) == ha + [HexDigit(a % 16)];
      assert Hex(b) == hb + [HexDigit(b % 16)];
      assert Hex(a)[|Hex(a)| - 1] == HexDigit(a % 16);
      assert Hex(b)[|Hex(b)| - 1] == HexDigit(b % 16);
      assert ha == Hex(a)[..|Hex(a)| - 1];
      assert hb == Hex(b)[..|Hex(b)| - 1];
      HexInjective(a / 16, b / 16);
    }
  }

  function DecimalDigits(n: nat): (r: string)
    ensures |r| > 0
  {
    if n < 10 then [('0' as int + n) as char] else DecimalDigits(n / 10) + [('0' as int + n % 10) as char]
  }

  /** `Integer#to_s`. */
  function IntToString(i: int): string {
    if i < 0 then "-" + DecimalDigits(-i) else DecimalDigits(i)
  }
}
