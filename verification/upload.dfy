/** The file extension given to an uploaded product image (r2_client.py, `guess_ext`):
    the extension of the original file name, lower-cased, or else the one the MIME
    type registry suggests for the declared content type, or else nothing. The
    registry (`mimetypes.guess_extension`) is a parameter of the model. */
module Upload {
  import opened Wrappers
  import Text

  /** The position of the last '.' of `s`, if any. */
  function LastDot(s: string): (k: Option<nat>)
    ensures k.Some? ==> k.value < |s| && s[k.value] == '.'
                        && forall j :: k.value < j < |s| ==> s[j] != '.'
    ensures k.None? ==> forall j :: 0 <= j < |s| ==> s[j] != '.'
  {
    if s == [] then None
    else if s[|s| - 1] == '.' then Some(|s| - 1)
    else LastDot(s[..|s| - 1])
  }

  /** What `rsplit(".", 1)[-1]` keeps of a name that holds a dot: the text after its last dot. */
  function Suffix(s: string): (r: string)
    requires LastDot(s).Some?
    ensures forall j :: 0 <= j < |r| ==> r[j] != '.'
  {
    s[LastDot(s).value + 1..]
  }

  /** `guess_ext`: the name's own extension wins; the content type is asked only when
      the name is empty or has no dot, and an empty answer falls through to "". */
  function GuessExt(filename: string, contentType: Option<string>,
                    guess: string -> Option<string>): (r: string)
    ensures LastDot(filename).Some? ==> r == "." + Text.Lower(Suffix(filename))
    ensures LastDot(filename).None? && contentType.Some? && contentType.value != ""
            && guess(contentType.value).Some? && guess(contentType.value).value != ""
            ==> r == guess(contentType.value).value
  {
    if filename != [] && LastDot(filename).Some? then "." + Text.Lower(Suffix(filename))
    else if contentType.Some? && contentType.value != "" then
      match guess(contentType.value)
      case Some(ext) => if ext != "" then ext else ""
      case None => ""
    else ""
  }

  /** Lower-casing neither creates nor removes dots. */
  lemma LowerKeepsDots(s: string)
    ensures forall j :: 0 <= j < |s| ==> (Text.Lower(s)[j] == '.' <==> s[j] == '.')
  {
  }

  /** A name with a dot yields a single dot followed by the lower-cased text after the
      name's last dot, and nothing else: the result holds no further dot and no
      upper-case letter. */
  lemma ExtensionOfName(filename: string, contentType: Option<string>, guess: string -> Option<string>, i: nat)
    requires i < |filename| && filename[i] == '.'
    requires forall j :: i < j < |filename| ==> filename[j] != '.'
    ensures GuessExt(filename, contentType, guess) == "." + Text.Lower(filename[i + 1..])
    ensures var r := GuessExt(filename, contentType, guess);
            && |r| == |filename| - i && r[0] == '.'
            && (forall j :: 1 <= j < |r| ==> r[j] != '.' && !Text.IsUpper(r[j]))
  {
    var k := LastDot(filename);
    assert k.Some? && k.value == i;
    var t := filename[i + 1..];
    LowerKeepsDots(t);
    var r := "." + Text.Lower(t);
    forall j | 1 <= j < |r|
      ensures r[j] != '.' && !Text.IsUpper(r[j])
    {
      assert r[j] == Text.Lower(t)[j - 1];
      assert t[j - 1] == filename[i + j];
    }
  }

  /** The content type plays no part once the name carries a dot. */
  lemma NameBeatsContentType(filename: string, c1: Option<string>, c2: Option<string>,
                             g1: string -> Option<string>, g2: string -> Option<string>)
    requires LastDot(filename).Some?
    ensures GuessExt(filename, c1, g1) == GuessExt(filename, c2, g2)
  {
  }

  /** Without a dot in the name, the extension is exactly the registry's non-empty answer
      for a non-empty content type, and "" in every other case. */
  lemma ContentTypeFallback(filename: string, contentType: Option<string>, guess: string -> Option<string>)
    requires forall j :: 0 <= j < |filename| ==> filename[j] != '.'
    ensures var r := GuessExt(filename, contentType, guess);
            if contentType.Some? && contentType.value != ""
               && guess(contentType.value).Some? && guess(contentType.value).value != ""
            then r == guess(contentType.value).value
            else r == ""
  {
    assert LastDot(filename).None?;
  }

  /** An extension derived from a name is a fixed point: asked again about the
      extension itself, the function returns it unchanged. */
  lemma ExtensionStable(filename: string, contentType: Option<string>, guess: string -> Option<string>,
                        c2: Option<string>, g2: string -> Option<string>)
    requires LastDot(filename).Some?
    ensures var r := GuessExt(filename, contentType, guess);
            GuessExt(r, c2, g2) == r
  {
    var i := LastDot(filename).value;
    ExtensionOfName(filename, contentType, guess, i);
    var r := GuessExt(filename, contentType, guess);
    var t := Text.Lower(filename[i + 1..]);
    ExtensionOfName(r, c2, g2, 0);
    assert r[1..] == t;
    Text.LowerIdempotent(filename[i + 1..]);
  }
}
