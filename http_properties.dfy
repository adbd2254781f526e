/**
  Properties of the request-handling decisions: the content type depends only on
  the lower-cased last extension and follows the table entry for it, the
  resolved file never leaves the document root, and the decision chain rejects
  before it opens anything.
 */
module HttpProperties {
  import opened Http

  // ---------------------------------------------------------------------------
  // Case-insensitivity of the content type

  lemma {:induction false} LowerSlices(s: string, i: nat)
    requires i <= |s|
    ensures Lower(s)[..i] == Lower(s[..i]) && Lower(s)[i..] == Lower(s[i..])
  {
  }

  /** Equality ignoring case compares lengths, then each pair of characters after lower-casing. */
  lemma IEqualsCharwise(a: string, b: string)
    ensures IEquals(a, b) <==>
      |a| == |b| && forall i :: 0 <= i < |a| ==> ToLowerAscii(a[i]) == ToLowerAscii(b[i])
  {
    if |a| == |b| && forall i :: 0 <= i < |a| ==> ToLowerAscii(a[i]) == ToLowerAscii(b[i]) {
      assert forall i :: 0 <= i < |a| ==> Lower(a)[i] == Lower(b)[i];
    }
  }

  /** Lower-casing moves no '.', so the last one is found at the same place. */
  lemma {:induction false} LastDotIgnoresCase(s: string)
    ensures LastDot(Lower(s)) == LastDot(s)
  {
    if s != [] {
      var n := |s| - 1;
      LowerSlices(s, n);
      if s[n] != '.' {
        LastDotIgnoresCase(s[..n]);
        assert Lower(s)[..n] == Lower(s[..n]);
      }
    }
  }

  lemma ExtensionIgnoresCase(s: string)
    ensures Extension(Lower(s)) == Lower(Extension(s))
  {
    LastDotIgnoresCase(s);
    match LastDot(s)
    case None =>
    case Some(i) => LowerSlices(s, i);
  }

  lemma {:induction false} LookupIgnoresCase(a: string, b: string, table: seq<(string, string)>)
    requires Lower(a) == Lower(b)
    ensures Lookup(a, table) == Lookup(b, table)
  {
    if table != [] {
      LookupIgnoresCase(a, b, table[1..]);
    }
  }

  /** Two paths that differ only in ASCII case get the same content type. */
  lemma MimeTypeIgnoresCase(p: string, q: string)
    requires Lower(p) == Lower(q)
    ensures MimeType(p) == MimeType(q)
  {
    ExtensionIgnoresCase(p);
    ExtensionIgnoresCase(q);
    LookupIgnoresCase(Extension(p), Extension(q), MimeTable);
  }

  // ---------------------------------------------------------------------------
  // The table

  lemma {:induction false} LookupFirstMatch(ext: string, table: seq<(string, string)>, i: nat)
    requires i < |table| && IEquals(ext, table[i].0)
    requires forall j :: 0 <= j < i ==> !IEquals(ext, table[j].0)
    ensures Lookup(ext, table) == table[i].1
  {
    if i > 0 {
      LookupFirstMatch(ext, table[1..], i - 1);
    }
  }

  lemma {:induction false} LookupNoMatch(ext: string, table: seq<(string, string)>)
    requires forall j :: 0 <= j < |table| ==> !IEquals(ext, table[j].0)
    ensures Lookup(ext, table) == DefaultMimeType
  {
    if table != [] {
      LookupNoMatch(ext, table[1..]);
    }
  }

  /** A string with no upper-case ASCII letter is its own lower-casing. */
  lemma LowerOfLowerCase(s: string)
    requires forall i :: 0 <= i < |s| ==> s[i] == '.' || 'a' <= s[i] <= 'z'
    ensures Lower(s) == s
  {
  }

  lemma MimeKeysLowerCase()
    ensures forall j :: 0 <= j < |MimeTable| ==> Lower(MimeTable[j].0) == MimeTable[j].0
  {
    forall j | 0 <= j < |MimeTable|
      ensures Lower(MimeTable[j].0) == MimeTable[j].0
    {
      LowerOfLowerCase(MimeTable[j].0);
    }
  }

  lemma MimeKeysDistinct()
    ensures forall j, k :: 0 <= j < k < |MimeTable| ==> MimeTable[j].0 != MimeTable[k].0
  {
  }

  lemma MimeKeysShort()
    ensures forall j :: 0 <= j < |MimeTable| ==> 3 <= |MimeTable[j].0| <= 5
  {
  }

  /** An extension equal, ignoring case, to a table key gets that entry's content type. */
  lemma MimeTypeFollowsTable(path: string, i: nat)
    requires i < |MimeTable| && IEquals(Extension(path), MimeTable[i].0)
    ensures MimeType(path) == MimeTable[i].1
  {
    MimeKeysLowerCase();
    MimeKeysDistinct();
    LookupFirstMatch(Extension(path), MimeTable, i);
  }

  /** An extension that matches no key, ignoring case, gets the default type. */
  lemma MimeTypeDefault(path: string)
    requires forall j :: 0 <= j < |MimeTable| ==> !IEquals(Extension(path), MimeTable[j].0)
    ensures MimeType(path) == DefaultMimeType
  {
    LookupNoMatch(Extension(path), MimeTable);
  }

  /** A path without any '.' has no extension and gets the default type. */
  lemma MimeTypeWithoutDot(path: string)
    requires '.' !in path
    ensures MimeType(path) == DefaultMimeType
  {
    forall j | 0 <= j < |MimeTable|
      ensures !IEquals(Extension(path), MimeTable[j].0)
    {
      assert |Lower(MimeTable[j].0)| > 0;
    }
    MimeTypeDefault(path);
  }

  /** Whatever precedes it, a final part that starts with the only '.' in it is the extension. */
  lemma ExtensionOfSuffix(pre: string, ext: string)
    requires |ext| >= 1 && ext[0] == '.' && '.' !in ext[1..]
    ensures Extension(pre + ext) == ext
  {
    var s := pre + ext;
    assert s[|pre|] == '.';
    assert s[|pre| + 1..] == ext[1..];
    assert s[|pre|..] == ext;
  }

  /** The extension is taken from the last '.', even one in a directory name. */
  lemma MimeTypeOfDottedDirectory()
    ensures Extension("/a.b/file") == ".b/file"
    ensures MimeType("/a.b/file") == DefaultMimeType
  {
    assert "/a.b/file" == "/a" + ".b/file";
    ExtensionOfSuffix("/a", ".b/file");
    MimeKeysShort();
    forall j | 0 <= j < |MimeTable|
      ensures !IEquals(".b/file", MimeTable[j].0)
    {
      assert |Lower(MimeTable[j].0)| <= 5;
    }
    MimeTypeDefault("/a.b/file");
  }

  // ---------------------------------------------------------------------------
  // The decision chain

  /**
    Which targets are legal: they must start with '/', and two dots in a row
    anywhere reject them, inside a name as much as a parent-directory step.
   */
  lemma TargetLegality()
    ensures LegalTarget("/") && LegalTarget("/a.b/c.html")
    ensures !LegalTarget("") && !LegalTarget("index.html")
    ensures !LegalTarget("/../etc/passwd") && !LegalTarget("/notes..txt")
  {
    assert "/../etc/passwd"[1] == '.' && "/../etc/passwd"[2] == '.';
    assert "/notes..txt"[6] == '.' && "/notes..txt"[7] == '.';
    var t := "/a.b/c.html";
    forall i | 0 <= i < |t| - 1
      ensures !(t[i] == '.' && t[i + 1] == '.')
    {
    }
  }

  /** Requests rejected for their method or target never look at the file system. */
  lemma RejectedRequestOpensNothing(root: string, req: Request, fs1: string -> OpenResult, fs2: string -> OpenResult)
    requires !KnownMethod(req.verb) || !LegalTarget(req.target)
    ensures HandleRequest(root, req, fs1) == HandleRequest(root, req, fs2)
    ensures HandleRequest(root, req, fs1).status == BadRequest
  {
  }

  /** HEAD answers exactly as GET does, except that a successful answer carries no body. */
  lemma HeadIsGetWithoutBody(root: string, req: Request, fs: string -> OpenResult)
    ensures
      var get := HandleRequest(root, req.(verb := Get), fs);
      var head := HandleRequest(root, req.(verb := Head), fs);
      && head.status == get.status
      && head.contentLength == get.contentLength
      && head.contentType == get.contentType
      && head.keepAlive == get.keepAlive
      && (head.status == Ok ==> head.body == EmptyBody && get.body.FileBody?)
      && (head.status != Ok ==> head == get)
  {
  }

  /** The root without its one trailing separator, as it appears in resolved paths. */
  function RootStem(root: string): string
  {
    if root != [] && root[|root| - 1] == PathSeparator then root[..|root| - 1] else root
  }

  lemma {:induction false} NoDotDotAcrossIndex(target: string)
    requires target != [] && target[|target| - 1] == '/' && !ContainsDotDot(target)
    ensures !ContainsDotDot(target + IndexFile)
  {
    var s := target + IndexFile;
    forall i | 0 <= i < |s| - 1
      ensures !(s[i] == '.' && s[i + 1] == '.')
    {
      if i + 1 < |target| {
        assert s[i] == target[i] && s[i + 1] == target[i + 1];
      } else if i + 1 == |target| {
        assert s[i] == '/';
      } else {
        assert s[i] == IndexFile[i - |target|] && s[i + 1] == IndexFile[i + 1 - |target|];
      }
    }
  }

  /**
    A legal target resolves to a path made of the document root followed by a
    part that starts with a separator and holds no "..": it cannot climb out of
    the root.
   */
  lemma ResolvedPathStaysUnderRoot(root: string, target: string)
    requires LegalTarget(target)
    ensures
      var stem := RootStem(root);
      var p := FilePath(root, target);
      && |stem| < |p| && p[..|stem|] == stem && p[|stem|] == '/'
      && !ContainsDotDot(p[|stem|..])
  {
    var stem := RootStem(root);
    var joined := PathConcatenate(root, target);
    assert joined == stem + target;
    if target[|target| - 1] == '/' {
      NoDotDotAcrossIndex(target);
      assert FilePath(root, target) == stem + (target + IndexFile);
      assert FilePath(root, target)[|stem|..] == target + IndexFile;
    } else {
      assert FilePath(root, target)[|stem|..] == target;
    }
  }

  /** A GET for "/" serves the index file of the document root. */
  lemma RootTargetServesIndex(root: string, req: Request, fs: string -> OpenResult, size: nat)
    requires req.verb == Get && req.target == "/"
    requires fs(RootStem(root) + "/index.html") == Opened(size)
    ensures HandleRequest(root, req, fs).status == Ok
    ensures HandleRequest(root, req, fs).body == FileBody(RootStem(root) + "/index.html")
    ensures HandleRequest(root, req, fs).contentLength == size
    ensures HandleRequest(root, req, fs).contentType == "text/html"
  {
    var stem := RootStem(root);
    var path := stem + "/index.html";
    assert LegalTarget(req.target) by {
      assert !ContainsDotDot("/");
    }
    assert FilePath(root, "/") == path by {
      assert PathConcatenate(root, "/") == stem + "/";
      assert (stem + "/") + IndexFile == path;
    }
    assert Extension(path) == ".html" by {
      assert path == (stem + "/index") + ".html";
      ExtensionOfSuffix(stem + "/index", ".html");
    }
    HtmlFile(path);
  }

  /** Files named *.html are served as text/html. */
  lemma HtmlFile(path: string)
    requires Extension(path) == ".html"
    ensures MimeType(path) == "text/html"
  {
    assert MimeTable[1] == (".html", "text/html");
    MimeTypeFollowsTable(path, 1);
  }
}
