/** Customer identifier normalisation (`normalizar_id`).

    `normalizar_id(id)` strips the surrounding whitespace of `id or ""` and
    then deletes every whitespace character and every `.`, `-`, `_` and `/`.
    The result is the key of the account store; it is well formed when it has
    at least `MinIdLength` characters.
 */
module Identifier {

  /** The raw argument of the tool: Python's `None` becomes `None` here. */
  datatype Option<+T> = None | Some(value: T) {
    function GetOr(default: T): T {
      match this
      case Some(v) => v
      case None => default
    }
  }

  /** A normalised identifier shorter than this is reported as INVALID. */
  const MinIdLength: nat := 6

  /** The characters for which Python's `str.isspace()` holds; this is also the
      set that the regular-expression class `\s` matches in a `str` pattern. */
  predicate IsWhitespace(c: char) {
    || ('\t' <= c <= '\r')                       // \t \n \x0b \x0c \r
    || ('\U{1C}' <= c <= '\U{1F}')
    || c == ' '
    || c == '\U{85}'
    || c == '\U{A0}'
    || c == '\U{1680}'
    || ('\U{2000}' <= c <= '\U{200A}')
    || c == '\U{2028}'
    || c == '\U{2029}'
    || c == '\U{202F}'
    || c == '\U{205F}'
    || c == '\U{3000}'
  }

  /** ASCII digits and letters: the characters an identifier is made of. */
  predicate IsAsciiAlphanumeric(c: char) {
    '0' <= c <= '9' || 'a' <= c <= 'z' || 'A' <= c <= 'Z'
  }

  /** The character class `[\s\.\-_/]` that normalisation deletes. */
  predicate IsSeparator(c: char) {
    IsWhitespace(c) || c == '.' || c == '-' || c == '_' || c == '/'
  }

  /** The usual blanks are whitespace; digits, letters and the four
      punctuation separators are not. */
  lemma WhitespaceClass(c: char)
    ensures c in " \t\n\r\U{0B}\U{0C}" ==> IsWhitespace(c)
    ensures IsAsciiAlphanumeric(c) || c in ".-_/" ==> !IsWhitespace(c)
  {
  }

  /** Whitespace and `.`, `-`, `_`, `/` are deleted; digits and letters never are. */
  lemma SeparatorClass(c: char)
    ensures c in ".-_/" || IsWhitespace(c) <==> IsSeparator(c)
    ensures IsAsciiAlphanumeric(c) ==> !IsSeparator(c)
  {
  }

  /** True when no character of `s` is a separator. */
  predicate Clean(s: string) {
    forall i :: 0 <= i < |s| ==> !IsSeparator(s[i])
  }

  /** True when every character of `s` is a separator. */
  predicate AllSeparators(s: string) {
    forall i :: 0 <= i < |s| ==> IsSeparator(s[i])
  }

  // ---------------------------------------------------------------------------
  // str.strip()
  // ---------------------------------------------------------------------------

  /** Drops the leading whitespace: the result is the suffix of `s` that starts
      at its first non-whitespace character. */
  function TrimStart(s: string): (r: string)
    ensures |r| <= |s| && r == s[|s| - |r|..]
    ensures forall i :: 0 <= i < |s| - |r| ==> IsWhitespace(s[i])
    ensures r != [] ==> !IsWhitespace(r[0])
  {
    if s != [] && IsWhitespace(s[0]) then TrimStart(s[1..]) else s
  }

  /** Drops the trailing whitespace: the result is the prefix of `s` that ends
      at its last non-whitespace character. */
  function TrimEnd(s: string): (r: string)
    ensures |r| <= |s| && r == s[..|r|]
    ensures forall i :: |r| <= i < |s| ==> IsWhitespace(s[i])
    ensures r != [] ==> !IsWhitespace(r[|r| - 1])
  {
    if s != [] && IsWhitespace(s[|s| - 1]) then TrimEnd(s[..|s| - 1]) else s
  }

  /** `r` occurs in `s` starting at position `i`. */
  ghost predicate SliceAt(s: string, i: int, r: string) {
    0 <= i && i + |r| <= |s| && forall k :: 0 <= k < |r| ==> r[k] == s[i + k]
  }

  /** Every character of `s` before position `lo` or from position `hi` on is
      whitespace. */
  ghost predicate WhitespaceOutside(s: string, lo: int, hi: int) {
    forall k :: 0 <= k < |s| && !(lo <= k < hi) ==> IsWhitespace(s[k])
  }

  /** Python's `str.strip()` with no argument: the slice of `s` between its
      leading and its trailing whitespace. */
  function Strip(s: string): (r: string)
    ensures SliceAt(s, |s| - |TrimStart(s)|, r)
    ensures WhitespaceOutside(s, |s| - |TrimStart(s)|, |s| - |TrimStart(s)| + |r|)
    ensures r != [] ==> !IsWhitespace(r[0]) && !IsWhitespace(r[|r| - 1])
  {
    var t := TrimStart(s);
    var r := TrimEnd(t);
    TrimmedSlice(s, t, r);
    r
  }

  /** Trimming the end of a suffix left after dropping leading whitespace
      yields a slice of the whole string with only whitespace around it. The
      whitespace before the slice is the caller's assumption, carried through
      so that the conclusion names both sides. */
  lemma TrimmedSlice(s: string, t: string, r: string)
    requires |t| <= |s| && t == s[|s| - |t|..]
    requires forall k :: 0 <= k < |s| - |t| ==> IsWhitespace(s[k])
    requires |r| <= |t| && r == t[..|r|]
    requires forall k :: |r| <= k < |t| ==> IsWhitespace(t[k])
    requires t != [] ==> !IsWhitespace(t[0])
    ensures SliceAt(s, |s| - |t|, r)
    ensures WhitespaceOutside(s, |s| - |t|, |s| - |t| + |r|)
    ensures r != [] ==> !IsWhitespace(r[0])
  {
    var i := |s| - |t|;
    if r != [] {
      assert r[0] == t[0];
    }
    forall k | i + |r| <= k < |s| ensures IsWhitespace(s[k]) {
      assert s[k] == t[k - i];
    }
  }

  // ---------------------------------------------------------------------------
  // re.sub(r"[\s\.\-_/]", "", ...)
  // ---------------------------------------------------------------------------

  /** Deletes every separator of `s`, keeping the other characters in order. */
  function RemoveSeparators(s: string): (r: string)
    ensures |r| <= |s|
    ensures Clean(r)
  {
    if s == [] then []
    else
      var init := RemoveSeparators(s[..|s| - 1]);
      if IsSeparator(s[|s| - 1]) then init else init + [s[|s| - 1]]
  }

  /** `normalizar_id`: `re.sub(r"[\s\.\-_/]", "", (id or "").strip())`. */
  function NormalizeId(raw: Option<string>): (r: string)
    ensures Clean(r)
  {
    RemoveSeparators(Strip(raw.GetOr("")))
  }

  /** The identifier is long enough for a lookup. */
  predicate WellFormed(id: string) {
    |id| >= MinIdLength
  }

  // ---------------------------------------------------------------------------
  // Properties of RemoveSeparators
  // ---------------------------------------------------------------------------

  /** Removing separators distributes over concatenation. */
  lemma {:induction false} RemoveSeparatorsAppend(a: string, b: string)
    ensures RemoveSeparators(a + b) == RemoveSeparators(a) + RemoveSeparators(b)
  {
    if b == [] {
      assert a + b == a;
    } else {
      var ab, b0, c := a + b, b[..|b| - 1], b[|b| - 1];
      assert ab[..|ab| - 1] == a + b0;
      assert ab[|ab| - 1] == c;
      assert b[..|b| - 1] == b0;
      RemoveSeparatorsAppend(a, b0);
      var keep := if IsSeparator(c) then [] else [c];
      calc {
        RemoveSeparators(ab);
        RemoveSeparators(a + b0) + keep;
        RemoveSeparators(a) + RemoveSeparators(b0) + keep;
        RemoveSeparators(a) + (RemoveSeparators(b0) + keep);
        RemoveSeparators(a) + RemoveSeparators(b);
      }
    }
  }

  /** A string is left unchanged exactly when it holds no separator. */
  lemma {:induction false} RemoveSeparatorsFixesClean(s: string)
    ensures RemoveSeparators(s) == s <==> Clean(s)
  {
    if s != [] && Clean(s) {
      var init := s[..|s| - 1];
      assert Clean(init) by {
        forall i | 0 <= i < |init| ensures !IsSeparator(init[i]) {
          assert init[i] == s[i];
        }
      }
      RemoveSeparatorsFixesClean(init);
      assert init + [s[|s| - 1]] == s;
    }
  }

  /** Everything is removed exactly when every character is a separator. */
  lemma {:induction false} RemoveSeparatorsEmpty(s: string)
    ensures RemoveSeparators(s) == [] <==> AllSeparators(s)
  {
    if s != [] {
      var init := s[..|s| - 1];
      RemoveSeparatorsEmpty(init);
      if AllSeparators(s) {
        assert AllSeparators(init) by {
          forall i | 0 <= i < |init| ensures IsSeparator(init[i]) {
            assert init[i] == s[i];
          }
        }
      } else if RemoveSeparators(s) == [] {
        assert IsSeparator(s[|s| - 1]);
        assert AllSeparators(init);
        assert forall i :: 0 <= i < |s| - 1 ==> s[i] == init[i];
        assert false;
      }
    }
  }

  /** The positions of `s` whose character is not a separator, ascending. */
  function KeptPositions(s: string): (ps: seq<nat>)
    ensures forall k :: 0 <= k < |ps| ==> ps[k] < |s|
  {
    if s == [] then []
    else
      var init := KeptPositions(s[..|s| - 1]);
      if IsSeparator(s[|s| - 1]) then init else init + [|s| - 1]
  }

  /** The result is the subsequence of `s` made of exactly its non-separator
      characters: the i-th kept character is `s` at the i-th kept position,
      the positions increase, and a position is kept exactly when its
      character is not a separator. */
  lemma {:induction false} RemoveSeparatorsIsSubsequence(s: string)
    ensures |KeptPositions(s)| == |RemoveSeparators(s)|
    ensures forall k :: 0 <= k < |KeptPositions(s)| ==>
              RemoveSeparators(s)[k] == s[KeptPositions(s)[k]]
    ensures forall k, l :: 0 <= k < l < |KeptPositions(s)| ==>
              KeptPositions(s)[k] < KeptPositions(s)[l]
    ensures forall i :: 0 <= i < |s| ==> (i in KeptPositions(s) <==> !IsSeparator(s[i]))
  {
    if s != [] {
      var init := s[..|s| - 1];
      RemoveSeparatorsIsSubsequence(init);
      var ps, r := KeptPositions(s), RemoveSeparators(s);
      var ps0, r0 := KeptPositions(init), RemoveSeparators(init);
      assert forall i :: 0 <= i < |init| ==> init[i] == s[i];
      if !IsSeparator(s[|s| - 1]) {
        assert ps == ps0 + [|s| - 1] && r == r0 + [s[|s| - 1]];
        forall i | 0 <= i < |s| ensures i in ps <==> !IsSeparator(s[i]) {
          if i < |s| - 1 {
            assert i in ps <==> i in ps0;
          }
        }
      } else {
        forall i | 0 <= i < |s| ensures i in ps <==> !IsSeparator(s[i]) {
          if i == |s| - 1 {
            assert i !in ps0;
          }
        }
      }
    }
  }

  /** Removing leading whitespace does not change the normal form. */
  lemma {:induction false} RemoveSeparatorsTrimStart(s: string)
    ensures RemoveSeparators(TrimStart(s)) == RemoveSeparators(s)
  {
    if s != [] && IsWhitespace(s[0]) {
      var head, tail := [s[0]], s[1..];
      assert RemoveSeparators(head) == [] by {
        assert head[..0] == [];
      }
      assert s == head + tail;
      RemoveSeparatorsTrimStart(tail);
      RemoveSeparatorsAppend(head, tail);
      calc {
        RemoveSeparators(TrimStart(s));
        RemoveSeparators(TrimStart(tail));
        RemoveSeparators(tail);
        RemoveSeparators(head) + RemoveSeparators(tail);
        RemoveSeparators(head + tail);
      }
    }
  }

  /** Removing trailing whitespace does not change the normal form. */
  lemma {:induction false} RemoveSeparatorsTrimEnd(s: string)
    ensures RemoveSeparators(TrimEnd(s)) == RemoveSeparators(s)
  {
    if s != [] && IsWhitespace(s[|s| - 1]) {
      RemoveSeparatorsTrimEnd(s[..|s| - 1]);
    }
  }

  // ---------------------------------------------------------------------------
  // Properties of NormalizeId
  // ---------------------------------------------------------------------------

  /** The `strip()` before the substitution is redundant: the normal form of a
      present identifier is its string with the separators removed. */
  lemma NormalizeIdIgnoresStrip(s: string)
    ensures NormalizeId(Some(s)) == RemoveSeparators(s)
  {
    RemoveSeparatorsTrimEnd(TrimStart(s));
    RemoveSeparatorsTrimStart(s);
  }

  /** A missing identifier normalises to the empty string. */
  lemma NormalizeIdMissing()
    ensures NormalizeId(None) == ""
  {
  }

  /** Normalising a normal form changes nothing. */
  lemma NormalizeIdIdempotent(raw: Option<string>)
    ensures NormalizeId(Some(NormalizeId(raw))) == NormalizeId(raw)
  {
    var n := NormalizeId(raw);
    NormalizeIdIgnoresStrip(n);
    RemoveSeparatorsFixesClean(n);
  }

  /** Inserting separators anywhere (surrounding whitespace included) does not
      change the normal form: "123-456.789" and "123456789" are one key. */
  lemma NormalizeIdIgnoresInsertedSeparators(a: string, sep: string, b: string)
    requires AllSeparators(sep)
    ensures NormalizeId(Some(a + sep + b)) == NormalizeId(Some(a + b))
  {
    NormalizeIdIgnoresStrip(a + sep + b);
    NormalizeIdIgnoresStrip(a + b);
    RemoveSeparatorsAppend(a + sep, b);
    RemoveSeparatorsAppend(a, sep);
    RemoveSeparatorsAppend(a, b);
    RemoveSeparatorsEmpty(sep);
  }

  /** The normal form is empty exactly when the identifier is missing or made
      of separators only. */
  lemma NormalizeIdEmpty(raw: Option<string>)
    ensures NormalizeId(raw) == [] <==> raw.None? || AllSeparators(raw.value)
  {
    if raw.Some? {
      NormalizeIdIgnoresStrip(raw.value);
      RemoveSeparatorsEmpty(raw.value);
    }
  }
}
