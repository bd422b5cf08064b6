/**
 * The JavaScript string built-ins the discovery code relies on, as Dafny functions over
 * `seq<char>`: `trim`, `toLowerCase`, `includes`, `split` on a character class, `join`,
 * and the rendering of an integer inside a template literal.
 */
module Text {
  import opened Wrappers

  /** The characters that `String.prototype.trim` strips and the pattern class `\s` matches. */
  predicate IsSpace(c: char) {
    c == ' ' || c == '\t' || c == '\n' || c == '\r' || c == '\U{000B}' || c == '\U{000C}'
    || c == '\U{00A0}' || c == '\U{1680}' || ('\U{2000}' <= c <= '\U{200A}')
    || c == '\U{2028}' || c == '\U{2029}' || c == '\U{202F}' || c == '\U{205F}'
    || c == '\U{3000}' || c == '\U{FEFF}'
  }

  predicate AllSpace(s: string) {
    forall k :: 0 <= k < |s| ==> IsSpace(s[k])
  }

  /** Neither end of `s` is white space. */
  predicate IsTrimmed(s: string) {
    s == [] || (!IsSpace(s[0]) && !IsSpace(s[|s| - 1]))
  }

  /** `String.prototype.trimStart`: the suffix of `s` that does not start with white space. */
  function TrimStart(s: string): (r: string)
    ensures |r| <= |s| && r == s[|s| - |r|..]
    ensures r == [] || !IsSpace(r[0])
    decreases |s|
  {
    if s != [] && IsSpace(s[0]) then TrimStart(s[1..]) else s
  }

  /** What `trimStart` cuts off is white space. */
  lemma {:induction false} TrimStartDropsSpace(s: string)
    ensures AllSpace(s[..|s| - |TrimStart(s)|])
    decreases |s|
  {
    if s != [] && IsSpace(s[0]) {
      var r := TrimStart(s[1..]);
      TrimStartDropsSpace(s[1..]);
      assert s[..|s| - |r|] == [s[0]] + s[1..][..|s| - 1 - |r|];
    }
  }

  /** `String.prototype.trimEnd`: the prefix of `s` that does not end with white space. */
  function TrimEnd(s: string): (r: string)
    ensures r <= s
    ensures r == [] || !IsSpace(r[|r| - 1])
    decreases |s|
  {
    if s != [] && IsSpace(s[|s| - 1]) then TrimEnd(s[..|s| - 1]) else s
  }

  /** What `trimEnd` cuts off is white space. */
  lemma {:induction false} TrimEndDropsSpace(s: string)
    ensures AllSpace(s[|TrimEnd(s)|..])
    decreases |s|
  {
    if s != [] && IsSpace(s[|s| - 1]) {
      var r := TrimEnd(s[..|s| - 1]);
      TrimEndDropsSpace(s[..|s| - 1]);
      assert s[|r|..] == s[..|s| - 1][|r|..] + [s[|s| - 1]];
    }
  }

  /** How many white-space characters `trim` removes from the front of `s`. */
  function TrimOffset(s: string): (i: nat)
    ensures i <= |s|
  {
    |s| - |TrimStart(s)|
  }

  /**
   * `String.prototype.trim`: the result is the slice of `s` that starts after the leading white
   * space, and no white space remains at either end; `TrimDropsOnlySpace` shows that only white
   * space is cut off.
   */
  function Trim(s: string): (r: string)
    ensures IsTrimmed(r)
    ensures TrimOffset(s) + |r| <= |s| && r == s[TrimOffset(s)..TrimOffset(s) + |r|]
  {
    var t := TrimStart(s);
    TrimEndKeepsStart(t);
    PrefixOfSuffix(s, |s| - |t|, TrimEnd(t));
    TrimEnd(t)
  }

  /** Trimming the end of a string that starts with no white space leaves both ends free of it. */
  lemma TrimEndKeepsStart(t: string)
    requires t == [] || !IsSpace(t[0])
    ensures IsTrimmed(TrimEnd(t))
  {
    var r := TrimEnd(t);
    if r != [] {
      assert r[0] == t[0];
    }
  }

  /** A prefix `r` of the suffix of `s` from `i` is the slice of `s` from `i`, and the rest of `s` is the rest of that suffix. */
  lemma PrefixOfSuffix(s: string, i: nat, r: string)
    requires i <= |s| && r <= s[i..]
    ensures i + |r| <= |s| && r == s[i..i + |r|] && s[i + |r|..] == s[i..][|r|..]
  {
    assert s[i..][..|r|] == s[i..i + |r|];
  }

  /** The trimmed string occurs in the input where the leading white space ends. */
  lemma TrimOccurs(s: string)
    ensures OccursAt(s, Trim(s), TrimOffset(s))
  {
  }

  /** What `trim` cuts off at either end is white space. */
  lemma TrimDropsOnlySpace(s: string)
    ensures AllSpace(s[..TrimOffset(s)]) && AllSpace(s[TrimOffset(s) + |Trim(s)|..])
  {
    var t := TrimStart(s);
    TrimStartDropsSpace(s);
    TrimEndDropsSpace(t);
    PrefixOfSuffix(s, |s| - |t|, TrimEnd(t));
  }

  /** A string made of two all-space parts is all space. */
  lemma AllSpaceConcat(a: string, b: string)
    requires AllSpace(a) && AllSpace(b)
    ensures AllSpace(a + b)
  {
    forall k | 0 <= k < |a + b| ensures IsSpace((a + b)[k]) {
      if k < |a| { assert (a + b)[k] == a[k]; } else { assert (a + b)[k] == b[k - |a|]; }
    }
  }

  /** Trimming yields the empty string exactly when the input is all white space. */
  lemma TrimEmptyIff(s: string)
    ensures Trim(s) == [] <==> AllSpace(s)
  {
    var r, i := Trim(s), TrimOffset(s);
    if r == [] {
      assert AllSpace(s) by {
        TrimDropsOnlySpace(s);
        assert s == s[..i] + s[i..];
        AllSpaceConcat(s[..i], s[i..]);
      }
    } else {
      assert !AllSpace(s) by {
        assert s[i] == r[0] && !IsSpace(r[0]);
      }
    }
  }

  /** A character absent from the input is absent from the trimmed string. */
  lemma TrimKeepsOut(s: string, c: char)
    requires c !in s
    ensures c !in Trim(s)
  {
    if c in Trim(s) {
      TrimSubset(s, c);
    }
  }

  /** A character of the trimmed string is a character of the input. */
  lemma TrimSubset(s: string, c: char)
    requires c in Trim(s)
    ensures c in s
  {
    var r, i := Trim(s), TrimOffset(s);
    var k :| 0 <= k < |r| && r[k] == c;
    assert s[i + k] == c;
  }

  /** `toLowerCase` on one character, for the Latin and Cyrillic alphabets. */
  function LowerChar(c: char): (d: char)
    ensures 'A' <= c <= 'Z' ==> d as int == c as int + 32
    ensures '\U{0410}' <= c <= '\U{042F}' ==> d as int == c as int + 32
    ensures c == '\U{0401}' ==> d == '\U{0451}'
    ensures !('A' <= c <= 'Z') && !('\U{0410}' <= c <= '\U{042F}') && c != '\U{0401}' ==> d == c
  {
    if 'A' <= c <= 'Z' || '\U{0410}' <= c <= '\U{042F}' then (c as int + 32) as char
    else if c == '\U{0401}' then '\U{0451}'
    else c
  }

  /** `String.prototype.toLowerCase`: character by character, so positions are kept. */
  function Lower(s: string): (r: string)
    ensures |r| == |s|
    ensures forall k :: 0 <= k < |s| ==> r[k] == LowerChar(s[k])
  {
    seq(|s|, k requires 0 <= k < |s| => LowerChar(s[k]))
  }

  /** Lower-casing twice is lower-casing once. */
  lemma LowerIdempotent(s: string)
    ensures Lower(Lower(s)) == Lower(s)
  {
  }

  /** `message.content.text?.toLowerCase() || ''`: the lower-cased text of a chat message, or empty. */
  function RequestText(text: Option<string>): (t: string)
    ensures text.None? ==> t == ""
    ensures text.Some? ==> t == Lower(text.value)
  {
    match text
    case Some(s) => Lower(s)
    case None => ""
  }

  /** `sub` occurs in `s` starting at position `i`. */
  predicate OccursAt(s: string, sub: string, i: int) {
    0 <= i && i + |sub| <= |s| && s[i..i + |sub|] == sub
  }

  /** `s.includes(sub)`: `sub` occurs in `s` at some position. */
  function Contains(s: string, sub: string): (b: bool)
    ensures b <==> exists i :: OccursAt(s, sub, i)
    decreases |s|
  {
    if sub <= s then
      assert OccursAt(s, sub, 0);
      true
    else if s == [] then
      false
    else
      var b := Contains(s[1..], sub);
      assert b ==> exists i :: OccursAt(s, sub, i) by {
        if b {
          var i :| OccursAt(s[1..], sub, i);
          assert s[i + 1..i + 1 + |sub|] == s[1..][i..i + |sub|];
          assert OccursAt(s, sub, i + 1);
        }
      }
      assert (exists i :: OccursAt(s, sub, i)) ==> b by {
        if exists i :: OccursAt(s, sub, i) {
          var i :| OccursAt(s, sub, i);
          assert i != 0;
          assert s[1..][i - 1..i - 1 + |sub|] == s[i..i + |sub|];
          assert OccursAt(s[1..], sub, i - 1);
        }
      }
      b
  }

  /** Some word of `words` occurs in `s`: a chain of `includes` tests joined by `||`. */
  predicate ContainsAny(s: string, words: seq<string>) {
    exists k :: 0 <= k < |words| && Contains(s, words[k])
  }

  /** `parts.join(sep)`. */
  function Join(parts: seq<string>, sep: string): (r: string)
    ensures parts == [] ==> r == ""
    ensures |parts| == 1 ==> r == parts[0]
  {
    if parts == [] then ""
    else if |parts| == 1 then parts[0]
    else parts[0] + sep + Join(parts[1..], sep)
  }

  /** The characters of `s` that belong to `delims`, in order. */
  function Delimiters(s: string, delims: set<char>): string {
    if s == [] then "" else (if s[0] in delims then [s[0]] else "") + Delimiters(s[1..], delims)
  }

  /** The inverse of a split: pieces with the delimiter that separated them put back in between. */
  function Weave(pieces: seq<string>, delims: string): string
    requires |pieces| == |delims| + 1
  {
    if delims == [] then pieces[0] else pieces[0] + [delims[0]] + Weave(pieces[1..], delims[1..])
  }

  /**
   * `s.split(/[...]/)` on a class of single characters: the maximal runs of `s` that hold no
   * delimiter, empty runs included, one more piece than there are delimiters.
   */
  function Split(s: string, delims: set<char>): (r: seq<string>)
    ensures |r| >= 1
  {
    if s == [] then
      [""]
    else
      var rest := Split(s[1..], delims);
      if s[0] in delims then [""] + rest else [[s[0]] + rest[0]] + rest[1..]
  }

  /** No piece of a split holds a delimiter. */
  lemma {:induction false} SplitPiecesFree(s: string, delims: set<char>)
    ensures forall k, j :: 0 <= k < |Split(s, delims)| && 0 <= j < |Split(s, delims)[k]| ==> Split(s, delims)[k][j] !in delims
  {
    if s != [] {
      SplitPiecesFree(s[1..], delims);
      var rest, r := Split(s[1..], delims), Split(s, delims);
      forall k, j | 0 <= k < |r| && 0 <= j < |r[k]| ensures r[k][j] !in delims {
        if s[0] in delims {
          assert r[k] == rest[k - 1];
        } else if k == 0 && j > 0 {
          assert r[k][j] == rest[0][j - 1];
        } else if k > 0 {
          assert r[k] == rest[k];
        }
      }
    }
  }

  /** Putting a character in front of the first piece puts it in front of the woven text. */
  lemma WeaveCons(c: char, pieces: seq<string>, ds: string)
    requires |pieces| == |ds| + 1
    ensures Weave([[c] + pieces[0]] + pieces[1..], ds) == [c] + Weave(pieces, ds)
  {
    var p := [[c] + pieces[0]] + pieces[1..];
    if ds != [] {
      assert p[1..] == pieces[1..];
      var w := Weave(pieces[1..], ds[1..]);
      assert Weave(p, ds) == [c] + pieces[0] + [ds[0]] + w;
      assert Weave(pieces, ds) == pieces[0] + [ds[0]] + w;
    }
  }

  /** Splitting loses nothing: weaving the pieces with the delimiters found gives the input back. */
  lemma {:induction false} SplitWeave(s: string, delims: set<char>)
    ensures |Split(s, delims)| == |Delimiters(s, delims)| + 1
    ensures Weave(Split(s, delims), Delimiters(s, delims)) == s
  {
    if s != [] {
      SplitWeave(s[1..], delims);
      var rest := Split(s[1..], delims);
      var ds := Delimiters(s[1..], delims);
      assert s == [s[0]] + s[1..];
      if s[0] in delims {
        assert Delimiters(s, delims) == [s[0]] + ds;
        assert Split(s, delims) == [""] + rest;
        assert ([""] + rest)[1..] == rest;
        assert ([s[0]] + ds)[1..] == ds;
      } else {
        assert Delimiters(s, delims) == ds;
        assert Split(s, delims) == [[s[0]] + rest[0]] + rest[1..];
        WeaveCons(s[0], rest, ds);
      }
    }
  }

  /** The decimal digit character of `d`. */
  function DigitChar(d: nat): (c: char)
    requires d < 10
    ensures '0' <= c <= '9'
  {
    "0123456789"[d]
  }

  /** The digit character of `d` stands for `d`. */
  lemma DigitCharValue(d: nat)
    requires d < 10
    ensures DigitChar(d) as int - '0' as int == d
  {
  }

  predicate IsDigits(s: string) {
    forall k :: 0 <= k < |s| ==> '0' <= s[k] <= '9'
  }

  /** The decimal digits of `n`, most significant first, with no leading zero. */
  function NatToDecimal(n: nat): (r: string)
    ensures |r| > 0 && IsDigits(r)
    ensures r[0] == '0' ==> n == 0 && r == "0"
    decreases n
  {
    if n < 10 then [DigitChar(n)] else NatToDecimal(n / 10) + [DigitChar(n % 10)]
  }

  /** The number a string of decimal digits denotes. */
  function DecimalValue(s: string): nat
    requires IsDigits(s)
  {
    if s == [] then 0 else DecimalValue(s[..|s| - 1]) * 10 + (s[|s| - 1] as int - '0' as int)
  }

  /** Reading back the digits of `n` gives `n`. */
  lemma {:induction false} DecimalRoundTrip(n: nat)
    ensures DecimalValue(NatToDecimal(n)) == n
    decreases n
  {
    if n < 10 {
      DigitCharValue(n);
    } else {
      DecimalRoundTrip(n / 10);
      var r := NatToDecimal(n);
      assert r[..|r| - 1] == NatToDecimal(n / 10);
      DigitCharValue(n % 10);
    }
  }

  /** An integer as a template literal renders it: an optional minus sign, then its digits. */
  function IntToString(i: int): (r: string)
    ensures i >= 0 ==> r == NatToDecimal(i)
    ensures i < 0 ==> r == "-" + NatToDecimal(-i)
  {
    if i < 0 then "-" + NatToDecimal(-i) else NatToDecimal(i)
  }
}
