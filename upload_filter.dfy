/** The server's upload acceptance rule: the multer file filter, which tests
    the lower-cased extension of the original file name and the MIME type
    against the unanchored alternation `jpeg|jpg|png|webp|mp4|avi|mkv|mov|webm`,
    and the 500 MiB file size limit. An unanchored alternation matches exactly
    when one of its words occurs somewhere in the string. */
module UploadFilter {

  const AllowedWords: seq<string> := ["jpeg", "jpg", "png", "webp", "mp4", "avi", "mkv", "mov", "webm"]

  const InvalidTypeMessage := "Invalid file type"

  /** The multer `fileSize` limit: 500 * 1024 * 1024 bytes. */
  const MaxUploadBytes := 500 * 1024 * 1024

  /** `word` occurs in `s` at some position. */
  ghost predicate OccursAt(word: string, s: string, i: int) {
    0 <= i && i + |word| <= |s| && s[i..i + |word|] == word
  }

  /** Whether `word` occurs in `s`, scanning start positions left to right. */
  function Occurs(word: string, s: string): (b: bool)
    ensures b <==> exists i :: OccursAt(word, s, i)
    decreases |s|
  {
    if |s| < |word| then
      NoRoomNoOccurrence(word, s);
      false
    else if s[..|word|] == word then
      assert OccursAt(word, s, 0);
      true
    else
      var rest := Occurs(word, s[1..]);
      OccursShift(word, s);
      rest
  }

  lemma NoRoomNoOccurrence(word: string, s: string)
    requires |s| < |word|
    ensures !exists i :: OccursAt(word, s, i)
  {
  }

  /** An occurrence in `s` is either at 0 or an occurrence in `s[1..]` shifted by one. */
  lemma OccursShift(word: string, s: string)
    requires |word| <= |s| && s[..|word|] != word
    ensures (exists i :: OccursAt(word, s, i)) <==> (exists i :: OccursAt(word, s[1..], i))
  {
    forall i | OccursAt(word, s, i) ensures OccursAt(word, s[1..], i - 1) {
      assert i != 0;
      assert s[1..][i - 1..i - 1 + |word|] == s[i..i + |word|];
    }
    forall i | OccursAt(word, s[1..], i) ensures OccursAt(word, s, i + 1) {
      assert s[1..][i..i + |word|] == s[i + 1..i + 1 + |word|];
    }
  }

  /** The regular expression's `test`: some allowed word occurs in `s`. */
  function MatchesAllowed(s: string): (b: bool)
    ensures b <==> exists k :: 0 <= k < |AllowedWords| && Occurs(AllowedWords[k], s)
  {
    AnyOccurs(AllowedWords, s)
  }

  function AnyOccurs(words: seq<string>, s: string): (b: bool)
    ensures b <==> exists k :: 0 <= k < |words| && Occurs(words[k], s)
  {
    if words == [] then false
    else if Occurs(words[0], s) then true
    else
      var rest := AnyOccurs(words[1..], s);
      assert forall k :: 1 <= k < |words| ==> words[k] == words[1..][k - 1];
      rest
  }

  /** `toLowerCase` on the ASCII letters. */
  function LowerChar(c: char): char {
    if 'A' <= c <= 'Z' then (c as int + 32) as char else c
  }

  function ToLower(s: string): (r: string)
    ensures |r| == |s|
    ensures forall i :: 0 <= i < |s| ==> r[i] == LowerChar(s[i])
  {
    seq(|s|, i requires 0 <= i < |s| => LowerChar(s[i]))
  }

  /** Lower-casing leaves no ASCII capital behind, so doing it twice changes
      nothing more, and it keeps a string that has no capitals as it is. */
  lemma ToLowerNormalises(s: string)
    ensures forall i :: 0 <= i < |s| ==> !('A' <= ToLower(s)[i] <= 'Z')
    ensures ToLower(ToLower(s)) == ToLower(s)
    ensures (forall i :: 0 <= i < |s| ==> !('A' <= s[i] <= 'Z')) ==> ToLower(s) == s
  {
  }

  /** Index of the last occurrence of `c` in `s`, or -1. */
  function LastIndexOf(s: string, c: char): (r: int)
    ensures -1 <= r < |s|
    ensures r >= 0 ==> s[r] == c
    ensures forall j :: r < j < |s| ==> s[j] != c
    decreases |s|
  {
    if s == [] then -1
    else if s[|s| - 1] == c then |s| - 1
    else LastIndexOf(s[..|s| - 1], c)
  }

  /** Node's `path.extname` for a name that does not end in '/': the part of
      the last path segment from its last '.', or "" when that segment has no
      '.', starts with its only significant '.', or is "..". */
  function Extname(name: string): (ext: string)
    ensures ext == [] || ext[0] == '.'
    ensures forall j :: 0 < j < |ext| ==> ext[j] != '.' && ext[j] != '/'
  {
    var base := name[LastIndexOf(name, '/') + 1..];
    var dot := LastIndexOf(base, '.');
    if dot <= 0 || base == ".." then "" else base[dot..]
  }

  /** The extension of a name with no '/' whose last '.' is at `dot > 0`. */
  lemma ExtnameAt(name: string, dot: int)
    requires '/' !in name
    requires 0 < dot < |name| && name[dot] == '.'
    requires forall j :: dot < j < |name| ==> name[j] != '.'
    requires name != ".."
    ensures Extname(name) == name[dot..]
  {
    LastIndexAbsent(name, '/');
    assert name[0..] == name;
  }

  /** A name with no '/' and no '.' after its first character has no extension. */
  lemma ExtnameNone(name: string)
    requires '/' !in name
    requires forall j :: 0 < j < |name| ==> name[j] != '.'
    ensures Extname(name) == ""
  {
    LastIndexAbsent(name, '/');
    assert name[0..] == name;
    var dot := LastIndexOf(name, '.');
    assert dot >= 0 ==> name[dot] == '.';
    assert dot <= 0;
  }

  lemma LastIndexAbsent(s: string, c: char)
    requires c !in s
    ensures LastIndexOf(s, c) == -1
  {
  }

  datatype Verdict = Accept | Reject(message: string)

  /** The multer `fileFilter`: both the lower-cased extension and the MIME
      type must contain an allowed word. */
  function FileFilter(originalName: string, mimetype: string): (v: Verdict)
    ensures v == Accept <==> MatchesAllowed(ToLower(Extname(originalName))) && MatchesAllowed(mimetype)
    ensures v != Accept ==> v == Reject(InvalidTypeMessage)
  {
    if MatchesAllowed(mimetype) && MatchesAllowed(ToLower(Extname(originalName))) then Accept
    else Reject(InvalidTypeMessage)
  }

  /** The whole upload gate: the filter runs on the part headers, before any
      data; a file that passes it is then cut off once it exceeds the limit. */
  function UploadVerdict(originalName: string, mimetype: string, size: nat): (v: Verdict)
    ensures v == Accept <==> FileFilter(originalName, mimetype) == Accept && size <= MaxUploadBytes
    ensures FileFilter(originalName, mimetype) != Accept ==> v == Reject(InvalidTypeMessage)
  {
    var filtered := FileFilter(originalName, mimetype);
    if filtered != Accept then filtered
    else if size > MaxUploadBytes then Reject("File too large")
    else Accept
  }

  /** A string none of whose characters starts an allowed word matches nothing. */
  lemma NoAllowedWordIn(s: string)
    requires forall i :: 0 <= i < |s| ==> s[i] !in "jpwma"
    ensures !MatchesAllowed(s)
  {
    forall k, i | 0 <= k < |AllowedWords| && 0 <= i ensures !OccursAt(AllowedWords[k], s, i) {
      var word := AllowedWords[k];
      if i + |word| <= |s| {
        assert s[i..i + |word|][0] == s[i];
        assert word[0] in "jpwma";
      }
    }
  }

  /** An executable is rejected whatever MIME type it claims. */
  lemma ExeRejected(mimetype: string)
    ensures FileFilter("setup.exe", mimetype) == Reject(InvalidTypeMessage)
  {
    ExtnameAt("setup.exe", 5);
    assert "setup.exe"[5..] == ".exe";
    assert ToLower(".exe") == ".exe";
    NoAllowedWordIn(".exe");
  }

  /** The test is a substring test: a name that only contains "png" inside a
      longer extension, with a MIME type that only mentions "mp4", passes. */
  lemma SubstringNotExact()
    ensures FileFilter("notes.PNGX", "application/x-mp4-wrapper") == Accept
  {
    PngxExtensionMatches();
    Mp4WrapperMatches();
  }

  lemma PngxExtensionMatches()
    ensures MatchesAllowed(ToLower(Extname("notes.PNGX")))
  {
    PngxExtension();
    PngxLowered();
    PngxMatches();
  }

  lemma PngxLowered()
    ensures ToLower(".PNGX") == ".pngx"
  {
    var lower := ToLower(".PNGX");
    assert lower[0] == '.' && lower[1] == 'p' && lower[2] == 'n' && lower[3] == 'g' && lower[4] == 'x';
  }

  lemma PngxMatches()
    ensures MatchesAllowed(".pngx")
  {
    assert OccursAt(AllowedWords[2], ".pngx", 1);
  }

  lemma PngxExtension()
    ensures Extname("notes.PNGX") == ".PNGX"
  {
    ExtnameAt("notes.PNGX", 5);
    assert "notes.PNGX"[5..] == ".PNGX";
  }

  lemma Mp4WrapperMatches()
    ensures MatchesAllowed("application/x-mp4-wrapper")
  {
    assert OccursAt(AllowedWords[4], "application/x-mp4-wrapper", 14);
  }

  /** A name whose only dot starts it has no extension and is rejected. */
  lemma DotFileRejected(mimetype: string)
    ensures FileFilter(".png", mimetype) == Reject(InvalidTypeMessage)
  {
    ExtnameNone(".png");
    NoAllowedWordIn("");
  }

  /** The size limit admits exactly 524288000 bytes and nothing larger. */
  lemma SizeBoundary(name: string, mimetype: string)
    requires FileFilter(name, mimetype) == Accept
    ensures UploadVerdict(name, mimetype, 524288000) == Accept
    ensures UploadVerdict(name, mimetype, 524288001) != Accept
  {
  }
}
