/** The upload extension check `allowed_file` of backend/app.py. */
module Uploads {

  import opened Wrappers
  import opened PyStr

  const AllowedExtensions: set<string> := {"png", "jpg", "jpeg", "gif"}

  /** The position of the last occurrence of c in s. */
  function LastIndexOf(s: string, c: char): (r: Option<nat>)
    ensures r.Some? ==> r.value < |s| && s[r.value] == c && forall j :: r.value < j < |s| ==> s[j] != c
    ensures r.None? <==> c !in s
  {
    if s == [] then None
    else if s[|s| - 1] == c then Some(|s| - 1)
    else LastIndexOf(s[..|s| - 1], c)
  }

  /** `filename.rsplit('.', 1)[1]`: the text after the last dot. */
  function Extension(filename: string): (ext: string)
    requires '.' in filename
    ensures '.' !in ext && |ext| < |filename|
    ensures filename[|filename| - |ext| - 1] == '.' && filename[|filename| - |ext|..] == ext
  {
    filename[LastIndexOf(filename, '.').value + 1..]
  }

  /** Position i holds the last dot of the name. */
  predicate LastDotAt(filename: string, i: int) {
    0 <= i < |filename| && filename[i] == '.' && forall j :: i < j < |filename| ==> filename[j] != '.'
  }

  /** `allowed_file`: the name has a dot, and the text after its last dot,
      lower-cased, is png, jpg, jpeg or gif. */
  function AllowedFile(filename: string): (ok: bool)
    ensures ok <==> exists i :: LastDotAt(filename, i) && Lower(filename[i + 1..]) in AllowedExtensions
  {
    var ok := '.' in filename && Lower(Extension(filename)) in AllowedExtensions;
    assert '.' in filename ==> LastDotAt(filename, LastIndexOf(filename, '.').value);
    assert forall i :: LastDotAt(filename, i) ==> i == LastIndexOf(filename, '.').value;
    ok
  }

  /** An upper-case extension passes. */
  lemma {:induction false} AcceptsUpperCaseExtension()
    ensures AllowedFile("a.PNG")
  {
    assert LastDotAt("a.PNG", 1) && "a.PNG"[2..] == "PNG";
    assert Lower("PNG") == "png";
  }

  /** A name that is only a dot and an extension passes. */
  lemma {:induction false} AcceptsBareExtension()
    ensures AllowedFile(".png")
  {
    assert LastDotAt(".png", 0) && ".png"[1..] == "png";
    assert Lower("png") == "png";
  }

  /** Only the last extension counts. */
  lemma {:induction false} RejectsTrailingExtension()
    ensures !AllowedFile("x.png.exe")
  {
    var exe := "x.png.exe";
    assert LastDotAt(exe, 5) && exe[6..] == "exe";
    assert Lower("exe") == "exe";
  }

  /** A name without a dot fails, even when it spells an extension. */
  lemma {:induction false} RejectsNoDot()
    ensures !AllowedFile("png")
  {
    assert forall i :: 0 <= i < 3 ==> "png"[i] != '.';
  }
}
