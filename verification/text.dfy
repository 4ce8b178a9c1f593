/** The two Python string methods the conversation code relies on:
    `str.strip()` with no argument and `str.lower()`. */
module Text {

  /** Python's `str.isspace()` for one character: the ASCII controls TAB..CR and
      FS..US, the space, NEL, NO-BREAK SPACE and the Unicode space separators. */
  predicate IsSpace(c: char) {
    || c == ' '
    || ('\t' <= c <= '\r')
    || ('\U{1C}' <= c <= '\U{1F}')
    || c == '\U{85}'
    || c == '\U{A0}'
    || c == '\U{1680}'
    || ('\U{2000}' <= c <= '\U{200A}')
    || c == '\U{2028}'
    || c == '\U{2029}'
    || c == '\U{202F}'
    || c == '\U{205F}'
    || c == '\U{3000}'
  }

  /** `s` with its leading whitespace removed. */
  function TrimStart(s: string): (r: string)
    ensures |r| <= |s|
    ensures r == [] || !IsSpace(r[0])
  {
    if s != [] && IsSpace(s[0]) then TrimStart(s[1..]) else s
  }

  /** `s` with its trailing whitespace removed. */
  function TrimEnd(s: string): (r: string)
    ensures |r| <= |s|
    ensures r == [] || !IsSpace(r[|r| - 1])
  {
    if s != [] && IsSpace(s[|s| - 1]) then TrimEnd(s[..|s| - 1]) else s
  }

  /** TrimStart drops exactly a run of leading whitespace: the result is a suffix of
      `s` and everything before it is space. */
  lemma {:induction false} TrimStartIsSuffix(s: string)
    ensures var r := TrimStart(s);
            r == s[|s| - |r|..] && forall i :: 0 <= i < |s| - |r| ==> IsSpace(s[i])
    decreases |s|
  {
    if s != [] && IsSpace(s[0]) {
      TrimStartIsSuffix(s[1..]);
    }
  }

  /** TrimEnd drops exactly a run of trailing whitespace: the result is a prefix of
      `s` and everything after it is space. */
  lemma {:induction false} TrimEndIsPrefix(s: string)
    ensures var r := TrimEnd(s);
            r == s[..|r|] && forall i :: |r| <= i < |s| ==> IsSpace(s[i])
    decreases |s|
  {
    if s != [] && IsSpace(s[|s| - 1]) {
      TrimEndIsPrefix(s[..|s| - 1]);
    }
  }

  /** Python's `s.strip()`. */
  function Strip(s: string): (r: string)
    ensures |r| <= |s|
    ensures r == [] || !IsSpace(r[|r| - 1])
  {
    TrimEnd(TrimStart(s))
  }

  /** Strip leaves whitespace at neither end. */
  lemma {:induction false} StripTrimmed(s: string)
    ensures var r := Strip(s);
            r == [] || (!IsSpace(r[0]) && !IsSpace(r[|r| - 1]))
  {
    var a := TrimStart(s);
    TrimEndIsPrefix(a);
    if Strip(s) != [] {
      assert Strip(s)[0] == a[0];
    }
  }

  /** Strip keeps a contiguous slice of `s` and removes only whitespace around it. */
  lemma {:induction false} StripIsSlice(s: string)
    ensures exists i, j ::
              (&& 0 <= i <= j <= |s| && Strip(s) == s[i..j]
               && (forall k :: 0 <= k < i ==> IsSpace(s[k]))
               && (forall k :: j <= k < |s| ==> IsSpace(s[k])))
  {
    var a := TrimStart(s);
    TrimStartIsSuffix(s);
    TrimEndIsPrefix(a);
    var i := |s| - |a|;
    var j := i + |TrimEnd(a)|;
    assert Strip(s) == s[i..j];
    forall k | j <= k < |s|
      ensures IsSpace(s[k])
    {
      assert s[k] == a[k - i];
    }
  }

  /** A text without surrounding whitespace is its own strip. */
  lemma {:induction false} StripKeeps(s: string)
    requires s == [] || (!IsSpace(s[0]) && !IsSpace(s[|s| - 1]))
    ensures Strip(s) == s
  {
    assert TrimStart(s) == s;
  }

  /** Stripping twice is stripping once. */
  lemma StripIdempotent(s: string)
    ensures Strip(Strip(s)) == Strip(s)
  {
    StripTrimmed(s);
    StripKeeps(Strip(s));
  }

  /** Python's `str.lower()` on one character, for ASCII and Latin-1: the capitals
      A..Z and U+00C0..U+00DE except the multiplication sign move up by 32. */
  function LowerChar(c: char): (d: char)
    ensures IsUpper(c) ==> d as int == c as int + 32
    ensures !IsUpper(c) ==> d == c
    ensures !IsUpper(d)
  {
    if IsUpper(c) then (c as int + 32) as char else c
  }

  predicate IsUpper(c: char) {
    ('A' <= c <= 'Z') || ('\U{C0}' <= c <= '\U{DE}' && c != '\U{D7}')
  }

  /** Python's `s.lower()`, character by character. */
  function Lower(s: string): (r: string)
    ensures |r| == |s|
    ensures forall i :: 0 <= i < |s| ==> r[i] == LowerChar(s[i])
  {
    seq(|s|, i requires 0 <= i < |s| => LowerChar(s[i]))
  }

  /** Lowering is idempotent. */
  lemma LowerIdempotent(s: string)
    ensures Lower(Lower(s)) == Lower(s)
  {
  }

  /** A text with no capital letter is its own lowercase form. */
  lemma LowerKeeps(s: string)
    requires forall i :: 0 <= i < |s| ==> !IsUpper(s[i])
    ensures Lower(s) == s
  {
  }
}
