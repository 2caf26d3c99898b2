/**
 * scripts/nombres_imagenes.py: lists a directory, keeps the image files by
 * extension, and writes each kept name without its extension, one per line.
 * The directory listing is a parameter and the output file is the returned text.
 */
module NombresImagenes {
  import opened Wrappers

  const VALID_EXTENSIONS: seq<string> := [".png", ".jpg", ".jpeg", ".webp"]

  /** The position of the last '.' of a name. */
  function LastDot(p: string): (r: Option<nat>)
    ensures r.Some? ==> r.value < |p|
  {
    if p == [] then None
    else if p[|p| - 1] == '.' then Some(|p| - 1)
    else LastDot(p[..|p| - 1])
  }

  lemma {:induction false} LastDotShape(p: string)
    ensures LastDot(p).Some? ==>
      && LastDot(p).value < |p| && p[LastDot(p).value] == '.'
      && forall j :: LastDot(p).value < j < |p| ==> p[j] != '.'
    ensures LastDot(p).None? ==> forall j :: 0 <= j < |p| ==> p[j] != '.'
  {
    if p != [] && p[|p| - 1] != '.' {
      LastDotShape(p[..|p| - 1]);
    }
  }

  predicate AllDots(s: string)
  {
    forall i :: 0 <= i < |s| ==> s[i] == '.'
  }

  /**
   * `os.path.splitext` on a name without separators: the text from the last
   * '.' is the extension, unless only dots precede it (".bashrc", "..png"),
   * in which case the extension is empty.
   */
  function Splitext(p: string): (string, string)
  {
    match LastDot(p)
    case None => (p, "")
    case Some(d) => if AllDots(p[..d]) then (p, "") else (p[..d], p[d..])
  }

  /**
   * The root and the extension put back together are the name; a non-empty
   * extension is one '.' followed by no other '.', and the root then holds a
   * character other than '.'.
   */
  lemma SplitextShape(p: string)
    ensures Splitext(p).0 + Splitext(p).1 == p
    ensures Splitext(p).1 != [] ==>
      && Splitext(p).1[0] == '.' && '.' !in Splitext(p).1[1..]
      && !AllDots(Splitext(p).0)
  {
    LastDotShape(p);
    match LastDot(p)
    case None =>
    case Some(d) =>
      if !AllDots(p[..d]) {
        var ext := p[d..];
        forall j | 0 <= j < |ext[1..]|
          ensures ext[1..][j] != '.'
        {
          assert ext[1..][j] == p[d + 1 + j];
        }
      }
  }

  /** `str.lower()` on ASCII letters; no other character lowers to a letter of the four extensions. */
  function LowerChar(c: char): char
  {
    if 'A' <= c <= 'Z' then (c as int + 32) as char else c
  }

  function Lower(s: string): (r: string)
    ensures |r| == |s| && forall i :: 0 <= i < |s| ==> r[i] == LowerChar(s[i])
  {
    seq(|s|, i requires 0 <= i < |s| => LowerChar(s[i]))
  }

  predicate IsUpper(c: char)
  {
    'A' <= c <= 'Z'
  }

  /**
   * Lower-casing leaves no upper-case letter, changes nothing else, and is
   * idempotent; a text is its own lower case exactly when it has no upper-case letter.
   */
  lemma LowerMeaning(s: string)
    ensures forall i :: 0 <= i < |s| ==> !IsUpper(Lower(s)[i])
    ensures forall i :: 0 <= i < |s| && !IsUpper(s[i]) ==> Lower(s)[i] == s[i]
    ensures Lower(Lower(s)) == Lower(s)
    ensures Lower(s) == s <==> forall i :: 0 <= i < |s| ==> !IsUpper(s[i])
  {
    if Lower(s) == s {
      forall i | 0 <= i < |s|
        ensures !IsUpper(s[i])
      {
        assert s[i] == Lower(s)[i];
      }
    }
  }

  /** The test of the comprehension: the lower-cased extension is one of the four. */
  predicate IsImage(f: string)
  {
    Lower(Splitext(f).1) in VALID_EXTENSIONS
  }

  /** `image_files`: the listing filtered by IsImage, in listing order. */
  function ImageFiles(listing: seq<string>): (r: seq<string>)
    ensures |r| <= |listing|
  {
    if listing == [] then []
    else (if IsImage(listing[0]) then [listing[0]] else []) + ImageFiles(listing[1..])
  }

  /** A name is kept exactly when it is listed and is an image; listing order is kept across concatenation. */
  lemma {:induction false} ImageFilesMeaning(listing: seq<string>, f: string)
    ensures f in ImageFiles(listing) <==> f in listing && IsImage(f)
    decreases |listing|
  {
    if listing != [] {
      ImageFilesMeaning(listing[1..], f);
      assert listing == [listing[0]] + listing[1..];
    }
  }

  lemma {:induction false} ImageFilesAppend(a: seq<string>, b: seq<string>)
    ensures ImageFiles(a + b) == ImageFiles(a) + ImageFiles(b)
    decreases |a|
  {
    if a == [] {
      assert a + b == b;
    } else {
      var head := if IsImage(a[0]) then [a[0]] else [];
      assert (a + b)[0] == a[0] && (a + b)[1..] == a[1..] + b;
      assert ImageFiles(a + b) == head + ImageFiles(a[1..] + b);
      ImageFilesAppend(a[1..], b);
      var x, y := ImageFiles(a[1..]), ImageFiles(b);
      assert ImageFiles(a) == head + x;
      assert head + (x + y) == (head + x) + y;
    }
  }

  /** The text written for a sequence of kept files: each root followed by a newline. */
  function NamesText(files: seq<string>): string
  {
    if files == [] then ""
    else NamesText(files[..|files| - 1]) + Splitext(files[|files| - 1]).0 + "\n"
  }

  /** The `with open(output_file, "w")` loop: one write per kept file. */
  method WriteImageNames(imageFiles: seq<string>) returns (content: string)
    ensures content == NamesText(imageFiles)
  {
    content := "";
    for i := 0 to |imageFiles|
      invariant content == NamesText(imageFiles[..i])
    {
      assert imageFiles[..i + 1][..i] == imageFiles[..i];
      content := content + Splitext(imageFiles[i]).0 + "\n";
    }
    assert imageFiles[..|imageFiles|] == imageFiles;
  }

  /** The whole script on a directory listing: the text of image_names.txt. */
  method NombresImagenes(listing: seq<string>) returns (content: string)
    ensures content == NamesText(ImageFiles(listing))
  {
    var imageFiles := ImageFiles(listing);
    content := WriteImageNames(imageFiles);
  }

  function CountNewlines(s: string): nat
  {
    if s == [] then 0 else CountNewlines(s[..|s| - 1]) + (if s[|s| - 1] == '\n' then 1 else 0)
  }

  lemma {:induction false} CountNewlinesAppend(a: string, b: string)
    ensures CountNewlines(a + b) == CountNewlines(a) + CountNewlines(b)
    decreases |b|
  {
    if b == [] {
      assert a + b == a;
    } else {
      assert (a + b)[..|a + b| - 1] == a + b[..|b| - 1];
      CountNewlinesAppend(a, b[..|b| - 1]);
    }
  }

  /** With names free of newlines, the text holds exactly one line per kept file. */
  lemma {:induction false} OneLinePerFile(files: seq<string>)
    requires forall i :: 0 <= i < |files| ==> '\n' !in files[i]
    ensures CountNewlines(NamesText(files)) == |files|
    decreases |files|
  {
    if files != [] {
      var last := files[|files| - 1];
      OneLinePerFile(files[..|files| - 1]);
      SplitextShape(last);
      var root := Splitext(last).0;
      forall k | 0 <= k < |root|
        ensures root[k] != '\n'
      {
        assert root[k] == (root + Splitext(last).1)[k];
      }
      CountNewlinesAppend(NamesText(files[..|files| - 1]) + root, "\n");
      CountNewlinesAppend(NamesText(files[..|files| - 1]), root);
      NoNewlines(root);
    }
  }

  lemma {:induction false} NoNewlines(s: string)
    requires '\n' !in s
    ensures CountNewlines(s) == 0
    decreases |s|
  {
    if s != [] {
      assert s[..|s| - 1] <= s;
      NoNewlines(s[..|s| - 1]);
    }
  }

  /** Only the last extension is removed: "a.b.webp" is kept and written as "a.b". */
  lemma OnlyLastExtensionStripped()
    ensures Splitext("a.b.webp") == ("a.b", ".webp") && IsImage("a.b.webp")
  {
    assert LastDot("a.b.webp") == Some(3) by {
      assert "a.b.webp"[..7] == "a.b.web" && "a.b.web"[..6] == "a.b.we" && "a.b.we"[..5] == "a.b.w";
      assert "a.b.w"[..4] == "a.b.";
    }
    assert "a.b.webp"[..3] == "a.b" && "a.b.webp"[3..] == ".webp";
    assert !AllDots("a.b") by { assert "a.b"[0] != '.'; }
    assert Lower(".webp") == ".webp";
  }

  /** Matching ignores case: "x.PNG" is kept. */
  lemma ExtensionCaseIgnored()
    ensures Splitext("x.PNG") == ("x", ".PNG") && IsImage("x.PNG")
  {
    assert LastDot("x.PNG") == Some(1) by {
      assert "x.PNG"[..4] == "x.PN" && "x.PN"[..3] == "x.P" && "x.P"[..2] == "x.";
    }
    assert "x.PNG"[..1] == "x" && "x.PNG"[1..] == ".PNG";
    assert !AllDots("x") by { assert "x"[0] != '.'; }
    assert Lower(".PNG") == ".png";
  }

  /** A name made of a dot and an extension, ".png", has no extension and is not kept. */
  lemma DotNameNotKept()
    ensures Splitext(".png") == (".png", "") && !IsImage(".png")
  {
    assert LastDot(".png") == Some(0) by {
      assert ".png"[..3] == ".pn" && ".pn"[..2] == ".p" && ".p"[..1] == ".";
    }
    assert ".png"[..0] == "";
    assert Lower("") == "";
  }
}
