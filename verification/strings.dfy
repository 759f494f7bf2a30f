/**
 * The string operations the hotkey normaliser relies on, with the semantics
 * of their JavaScript counterparts: `split` on a one-character separator,
 * `join`, `trim` and `toLowerCase`.
 */
module Strings {
  import opened Seqs

  /**
   * `s.split(sep)`: the pieces between separators, in order. There is always
   * at least one piece; the empty string splits into one empty piece, and
   * each separator at either end contributes an empty piece.
   */
  function Split(s: string, sep: char): (parts: seq<string>)
    ensures |parts| >= 1
    ensures forall p :: p in parts ==> sep !in p
    ensures Join(parts, sep) == s
    decreases |s|
  {
    if sep in s then
      var i := IndexOf(s, sep);
      var rest := Split(s[i + 1..], sep);
      assert s == s[..i] + [sep] + s[i + 1..];
      [s[..i]] + rest
    else [s]
  }

  /** `parts.join(sep)`. */
  function Join(parts: seq<string>, sep: char): string {
    if |parts| == 0 then ""
    else if |parts| == 1 then parts[0]
    else parts[0] + [sep] + Join(parts[1..], sep)
  }

  /** The first separator in a joined string is the one right after the first piece. */
  lemma FirstSeparator(p: string, sep: char, t: string)
    requires sep !in p
    ensures sep in p + [sep] + t
    ensures IndexOf(p + [sep] + t, sep) == |p|
  {
    var s := p + [sep] + t;
    assert s[|p|] == sep;
    forall j | 0 <= j < |p|
      ensures s[j] != sep
    {
      assert s[j] == p[j] && p[j] in p;
    }
  }

  /**
   * Splitting undoes joining, provided there is at least one piece and no
   * piece holds the separator (with no pieces at all, the empty string splits
   * into one empty piece).
   */
  lemma {:induction false} SplitJoin(parts: seq<string>, sep: char)
    requires |parts| >= 1
    requires forall p :: p in parts ==> sep !in p
    ensures Split(Join(parts, sep), sep) == parts
  {
    if |parts| > 1 {
      var p := parts[0];
      var t := Join(parts[1..], sep);
      var s := p + [sep] + t;
      assert Join(parts, sep) == s;
      assert Split(s, sep) == [p] + Split(t, sep) by {
        assert p in parts;
        FirstSeparator(p, sep, t);
        assert s[..|p|] == p;
        assert s[|p| + 1..] == t;
      }
      assert Split(t, sep) == parts[1..] by {
        assert forall q :: q in parts[1..] ==> q in parts;
        SplitJoin(parts[1..], sep);
      }
      assert parts == [p] + parts[1..];
    } else {
      assert parts[0] in parts;
    }
  }

  /** Two joins of separator-free pieces are equal only when the pieces are. */
  lemma JoinInjective(a: seq<string>, b: seq<string>, sep: char)
    requires |a| >= 1 && |b| >= 1
    requires forall p :: p in a ==> sep !in p
    requires forall p :: p in b ==> sep !in p
    requires Join(a, sep) == Join(b, sep)
    ensures a == b
  {
    SplitJoin(a, sep);
    SplitJoin(b, sep);
  }

  /**
   * The characters `trim` removes: the ASCII white space and line
   * terminators, no-break space, the byte-order mark and the Unicode line
   * and paragraph separators.
   */
  predicate IsSpace(c: char) {
    c == ' ' || c == '\t' || c == '\n' || c == '\r' || c == '\U{000B}' || c == '\U{000C}'
    || c == '\U{00A0}' || c == '\U{FEFF}' || c == '\U{2028}' || c == '\U{2029}'
  }

  /** How many white-space characters open `s`. */
  function LeadingSpaces(s: string): (i: nat)
    ensures i <= |s|
    ensures forall k :: 0 <= k < i ==> IsSpace(s[k])
    ensures i < |s| ==> !IsSpace(s[i])
  {
    if |s| > 0 && IsSpace(s[0]) then 1 + LeadingSpaces(s[1..]) else 0
  }

  /** Where the white space that closes `s` starts. */
  function TrailingStart(s: string): (j: nat)
    ensures j <= |s|
    ensures forall k :: j <= k < |s| ==> IsSpace(s[k])
    ensures j > 0 ==> !IsSpace(s[j - 1])
  {
    if |s| > 0 && IsSpace(s[|s| - 1]) then TrailingStart(s[..|s| - 1]) else |s|
  }

  /** No white space at either end. */
  predicate IsTrimmed(s: string) {
    |s| == 0 || (!IsSpace(s[0]) && !IsSpace(s[|s| - 1]))
  }

  /**
   * `s.trim()`: the longest slice of `s` that neither starts nor ends with
   * white space, found by dropping the white space at both ends.
   */
  function Trim(s: string): (r: string)
    ensures IsTrimmed(r)
    ensures LeadingSpaces(s) + |r| <= |s|
    ensures r == s[LeadingSpaces(s)..LeadingSpaces(s) + |r|]
    ensures forall k :: LeadingSpaces(s) + |r| <= k < |s| ==> IsSpace(s[k])
  {
    var i := LeadingSpaces(s);
    if i == |s| then "" else s[i..TrailingStart(s)]
  }

  /** A trimmed string is its own trim, so trimming is idempotent. */
  lemma TrimOfTrimmed(s: string)
    requires IsTrimmed(s)
    ensures Trim(s) == s
  {
    if |s| > 0 {
      assert LeadingSpaces(s) == 0;
      assert TrailingStart(s) == |s|;
    }
  }

  lemma TrimIsIdempotent(s: string)
    ensures Trim(Trim(s)) == Trim(s)
  {
    TrimOfTrimmed(Trim(s));
  }

  /** `toLowerCase` on one character, for the ASCII letters. */
  function LowerChar(c: char): char {
    if 'A' <= c <= 'Z' then (c as int + 32) as char else c
  }

  /** `s.toLowerCase()`, character by character. */
  function Lower(s: string): (r: string)
    ensures |r| == |s|
    ensures forall k :: 0 <= k < |s| ==> r[k] == LowerChar(s[k])
  {
    seq(|s|, k requires 0 <= k < |s| => LowerChar(s[k]))
  }

  /** No upper-case ASCII letter. */
  predicate IsLower(s: string) {
    forall k :: 0 <= k < |s| ==> !('A' <= s[k] <= 'Z')
  }

  /**
   * Lower-casing leaves exactly the lower-case strings alone, so it is
   * idempotent; it keeps white space and separators where they were.
   */
  lemma LowerFacts(s: string)
    ensures IsLower(Lower(s))
    ensures Lower(s) == s <==> IsLower(s)
    ensures IsTrimmed(s) ==> IsTrimmed(Lower(s))
    ensures '+' in Lower(s) <==> '+' in s
  {
    if IsLower(s) {
      assert forall k :: 0 <= k < |s| ==> Lower(s)[k] == s[k];
    }
    if Lower(s) == s {
      assert forall k :: 0 <= k < |s| ==> s[k] == LowerChar(s[k]);
    }
    if '+' in Lower(s) {
      var k := IndexOf(Lower(s), '+');
      assert s[k] == '+';
    }
    if '+' in s {
      var k := IndexOf(s, '+');
      assert Lower(s)[k] == '+';
    }
  }
}
