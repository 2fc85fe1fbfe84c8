/**
 * The few JavaScript string and truthiness operations the source relies on:
 * `toLowerCase`, `includes`, `trim`, and the falsiness of `""`, `0` and missing values.
 */
module JsText {
  import opened Common

  /** `toLowerCase` on one character; only the ASCII letters A-Z are mapped. */
  function LowerChar(c: char): char {
    if 'A' <= c <= 'Z' then (c as int + 32) as char else c
  }

  function ToLower(s: string): (r: string)
    ensures |r| == |s|
    ensures forall i :: 0 <= i < |s| ==> r[i] == LowerChar(s[i])
  {
    seq(|s|, i requires 0 <= i < |s| => LowerChar(s[i]))
  }

  /** `kw` occurs in `text` starting at position `i`. */
  predicate OccursAt(text: string, kw: string, i: nat) {
    i + |kw| <= |text| && text[i..i + |kw|] == kw
  }

  /** `text.includes(kw)`: substring containment, true for the empty keyword. */
  function Includes(text: string, kw: string): bool
    decreases |text|
  {
    if |kw| > |text| then false
    else if text[..|kw|] == kw then true
    else Includes(text[1..], kw)
  }

  /** `Includes` holds exactly when the keyword occurs at some position. */
  lemma {:induction false} IncludesIffOccurs(text: string, kw: string)
    ensures Includes(text, kw) <==> exists i: nat :: OccursAt(text, kw, i)
    decreases |text|
  {
    if |kw| > |text| {
      forall i: nat ensures !OccursAt(text, kw, i) { }
    } else if text[..|kw|] == kw {
      assert OccursAt(text, kw, 0);
    } else {
      IncludesIffOccurs(text[1..], kw);
      if Includes(text[1..], kw) {
        var i: nat :| OccursAt(text[1..], kw, i);
        assert text[1..][i..i + |kw|] == text[i + 1..i + 1 + |kw|];
        assert OccursAt(text, kw, i + 1);
      } else {
        forall i: nat | OccursAt(text, kw, i) ensures false {
          if i > 0 {
            assert text[1..][i - 1..i - 1 + |kw|] == text[i..i + |kw|];
            assert OccursAt(text[1..], kw, i - 1);
          }
        }
      }
    }
  }

  /** ECMAScript WhiteSpace and LineTerminator code points, which `trim` removes. */
  predicate IsSpace(c: char) {
    var n := c as int;
    n == 0x09 || n == 0x0A || n == 0x0B || n == 0x0C || n == 0x0D || n == 0x20
    || n == 0xA0 || n == 0x1680 || (0x2000 <= n <= 0x200A) || n == 0x2028 || n == 0x2029
    || n == 0x202F || n == 0x205F || n == 0x3000 || n == 0xFEFF
  }

  /** Number of whitespace characters at the front of `s`. */
  function LeadingSpaces(s: string): (n: nat)
    ensures n <= |s|
    ensures forall k :: 0 <= k < n ==> IsSpace(s[k])
    ensures n < |s| ==> !IsSpace(s[n])
  {
    if s == [] || !IsSpace(s[0]) then 0 else 1 + LeadingSpaces(s[1..])
  }

  /** Number of whitespace characters at the end of `s`. */
  function TrailingSpaces(s: string): (n: nat)
    ensures n <= |s|
    ensures forall k :: |s| - n <= k < |s| ==> IsSpace(s[k])
    ensures n < |s| ==> !IsSpace(s[|s| - 1 - n])
  {
    if s == [] || !IsSpace(s[|s| - 1]) then 0 else 1 + TrailingSpaces(s[..|s| - 1])
  }

  /** `s.trim()`. */
  function Trim(s: string): (r: string)
    ensures r == [] || (!IsSpace(r[0]) && !IsSpace(r[|r| - 1]))
    ensures |r| <= |s|
  {
    var rest := s[LeadingSpaces(s)..];
    rest[..|rest| - TrailingSpaces(rest)]
  }

  /** `trim` removes only whitespace: what it drops from either end is whitespace,
      and what it keeps is a contiguous part of the input. */
  lemma TrimDropsOnlySpaces(s: string)
    ensures var a := LeadingSpaces(s);
            a + |Trim(s)| <= |s| && Trim(s) == s[a..a + |Trim(s)|]
            && (forall k :: 0 <= k < a ==> IsSpace(s[k]))
            && (forall k :: a + |Trim(s)| <= k < |s| ==> IsSpace(s[k]))
  {
    var a := LeadingSpaces(s);
    var rest := s[a..];
    var t := TrailingSpaces(rest);
    forall k | a + |Trim(s)| <= k < |s| ensures IsSpace(s[k]) {
      assert s[k] == rest[k - a];
    }
  }

  /** A string already without surrounding whitespace is left unchanged by `trim`. */
  lemma TrimUnpadded(s: string)
    requires s == [] || (!IsSpace(s[0]) && !IsSpace(s[|s| - 1]))
    ensures Trim(s) == s
  {
    assert LeadingSpaces(s) == 0;
    assert s[0..] == s;
  }

  /** `trim` is idempotent. */
  lemma TrimIdempotent(s: string)
    ensures Trim(Trim(s)) == Trim(s)
  {
    TrimUnpadded(Trim(s));
  }

  /** JavaScript truthiness of an optional string: present and non-empty. */
  predicate TruthyString(s: Option<string>) {
    s.Some? && s.value != ""
  }

  /** JavaScript truthiness of an optional number: present and non-zero
      (NaN is not modelled). */
  predicate TruthyNumber(x: Option<real>) {
    x.Some? && x.value != 0.0
  }
}
