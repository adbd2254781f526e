/**
  The request-handling decisions of the HTTP session: the content type guessed
  from a path's extension, the joining of the document root with a request
  target, and the fixed decision chain that turns a parsed request plus the
  outcome of opening a file into a response.
 */
module Http {

  datatype Option<T> = None | Some(value: T)

  /** Body-size cap applied to every freshly constructed request parser. */
  const MaxBodySize: nat := 10000

  /** The POSIX path separator used when joining paths. */
  const PathSeparator: char := '/'

  /** Content type used when no table entry matches. */
  const DefaultMimeType: string := "application/text"

  /** File served for a request target that names a directory. */
  const IndexFile: string := "index.html"

  datatype Method = Get | Head | OtherMethod(name: string)

  /** A request as delivered by the parser. */
  datatype Request = Request(verb: Method, target: string, version: nat, keepAlive: bool)

  datatype Status = Ok | BadRequest | NotFound | InternalServerError

  datatype Body = StringBody(text: string) | EmptyBody | FileBody(path: string)

  datatype Response = Response(
    status: Status,
    version: nat,
    keepAlive: bool,
    contentType: string,
    contentLength: nat,
    body: Body)

  /** What opening a file for reading can report. */
  datatype OpenResult = Opened(size: nat) | NoSuchFile | OpenFailed(message: string)


  // ---------------------------------------------------------------------------
  // Case-insensitive comparison

  /** ASCII lower-casing, as used by case-insensitive string comparison. */
  function ToLowerAscii(c: char): (d: char)
    ensures 'A' <= c <= 'Z' ==> 'a' <= d <= 'z' && d as int - c as int == 32
    ensures !('A' <= c <= 'Z') ==> d == c
  {
    if 'A' <= c <= 'Z' then (c as int + 32) as char else c
  }

  function Lower(s: string): (r: string)
    ensures |r| == |s|
    ensures forall i :: 0 <= i < |s| ==> r[i] == ToLowerAscii(s[i])
  {
    if s == [] then [] else [ToLowerAscii(s[0])] + Lower(s[1..])
  }

  /** Equal up to ASCII case. */
  predicate IEquals(a: string, b: string)
  {
    Lower(a) == Lower(b)
  }

  // ---------------------------------------------------------------------------
  // mimeType

  /** Position of the last '.', if any. */
  function LastDot(s: string): (r: Option<nat>)
    ensures r.None? <==> '.' !in s
    ensures r.Some? ==> r.value < |s| && s[r.value] == '.' && '.' !in s[r.value + 1..]
  {
    if s == [] then None
    else if s[|s| - 1] == '.' then Some(|s| - 1)
    else
      var r := LastDot(s[..|s| - 1]);
      assert s == s[..|s| - 1] + [s[|s| - 1]];
      r
  }

  /** The extension of a path: everything from the last '.' on, or empty. */
  function Extension(path: string): (ext: string)
    ensures '.' !in path ==> ext == []
    ensures '.' in path ==>
      && 1 <= |ext| <= |path| && ext[0] == '.' && '.' !in ext[1..]
      && path == path[..|path| - |ext|] + ext
  {
    match LastDot(path)
    case None => []
    case Some(i) =>
      assert path == path[..i] + path[i..];
      path[i..]
  }

  /** The extension table, consulted in order; keys are compared ignoring case. */
  const MimeTable: seq<(string, string)> := [
    (".htm", "text/html"),
    (".html", "text/html"),
    (".php", "text/html"),
    (".css", "text/css"),
    (".txt", "text/plain"),
    (".js", "application/javascript"),
    (".json", "application/json"),
    (".xml", "application/xml"),
    (".swf", "application/x-shockwave-flash"),
    (".flv", "video/x-flv"),
    (".png", "image/png"),
    (".jpe", "image/jpeg"),
    (".jpeg", "image/jpeg"),
    (".jpg", "image/jpeg"),
    (".gif", "image/gif"),
    (".bmp", "image/bmp"),
    (".ico", "image/vnd.microsoft.icon"),
    (".tiff", "image/tiff"),
    (".tif", "image/tiff"),
    (".svg", "image/svg+xml"),
    (".svgz", "image/svg+xml")
  ]

  /** The value of the first entry whose key matches `ext` ignoring case, else the default. */
  function Lookup(ext: string, table: seq<(string, string)>): (r: string)
    ensures r == DefaultMimeType || exists i :: 0 <= i < |table| && r == table[i].1
  {
    if table == [] then DefaultMimeType
    else if IEquals(ext, table[0].0) then table[0].1
    else
      var r := Lookup(ext, table[1..]);
      assert r != DefaultMimeType ==> exists i :: 0 <= i < |table| - 1 && r == table[1..][i].1;
      r
  }

  /** The content type for a path: the table entry for its last extension, else the default. */
  function MimeType(path: string): (r: string)
    ensures r == DefaultMimeType || exists i :: 0 <= i < |MimeTable| && r == MimeTable[i].1
  {
    Lookup(Extension(path), MimeTable)
  }

  // ---------------------------------------------------------------------------
  // pathConcatenate

  /** Appends a request target to a local directory, dropping one trailing separator of the directory. */
  function PathConcatenate(base: string, path: string): (r: string)
    ensures base == [] ==> r == path
    ensures |r| >= |path| && r[|r| - |path|..] == path
    ensures base != [] ==>
      var stem := r[..|r| - |path|];
      && (stem == base <==> base[|base| - 1] != PathSeparator)
      && (stem != base ==> stem + [PathSeparator] == base)
  {
    if base == [] then path
    else
      var result := if base[|base| - 1] == PathSeparator then base[..|base| - 1] else base;
      assert (result + path)[..|result|] == result;
      result + path
  }

  // ---------------------------------------------------------------------------
  // handleRequest

  predicate KnownMethod(m: Method)
  {
    m == Get || m == Head
  }

  /** The target holds the parent-directory token ".." somewhere. */
  predicate ContainsDotDot(t: string)
  {
    exists i | 0 <= i < |t| - 1 :: t[i] == '.' && t[i + 1] == '.'
  }

  /** A target that is absolute and free of "..". */
  predicate LegalTarget(t: string)
  {
    t != [] && t[0] == '/' && !ContainsDotDot(t)
  }

  /** The local file a target resolves to; a directory target gets the index file. */
  function FilePath(root: string, target: string): (r: string)
    requires target != []
    ensures
      var tail := if target[|target| - 1] == '/' then target + IndexFile else target;
      && |tail| <= |r| && r[|r| - |tail|..] == tail
      && (root == [] ==> r == tail)
      && (root != [] ==>
           var stem := r[..|r| - |tail|];
           && (stem == root <==> root[|root| - 1] != PathSeparator)
           && (stem != root ==> stem + [PathSeparator] == root))
  {
    var p := PathConcatenate(root, target);
    if target[|target| - 1] == '/' then
      var stem := p[..|p| - |target|];
      assert p == stem + target;
      assert p + IndexFile == stem + (target + IndexFile);
      p + IndexFile
    else
      p
  }

  /** A string body is sent with its own length as Content-Length. */
  function TextResponse(status: Status, req: Request, text: string): (r: Response)
    ensures r.status == status && r.body == StringBody(text) && r.contentLength == |r.body.text|
    ensures r.version == req.version && r.keepAlive == req.keepAlive && r.contentType == "text/html"
  {
    Response(status, req.version, req.keepAlive, "text/html", |text|, StringBody(text))
  }

  function BadRequestResponse(req: Request, why: string): (r: Response)
    ensures r.status == BadRequest && r.body == StringBody(why) && r.contentLength == |why|
    ensures r.version == req.version && r.keepAlive == req.keepAlive && r.contentType == "text/html"
  {
    TextResponse(BadRequest, req, why)
  }

  /** The body names the target between single quotes. */
  function NotFoundResponse(req: Request, target: string): (r: Response)
    ensures r.status == NotFound && r.body.StringBody? && |r.body.text| == r.contentLength == |target| + 29
    ensures r.body.text[..14] == "The resource '" && r.body.text[14..14 + |target|] == target
    ensures r.body.text[14 + |target|..] == "' was not found"
    ensures r.version == req.version && r.keepAlive == req.keepAlive && r.contentType == "text/html"
  {
    TextResponse(NotFound, req, "The resource '" + target + "' was not found")
  }

  /** The body text keeps the program's spelling and its unmatched closing quote. */
  function ServerErrorResponse(req: Request, what: string): (r: Response)
    ensures r.status == InternalServerError && r.body.StringBody? && |r.body.text| == r.contentLength == |what| + 19
    ensures r.body.text[..18] == "An error occured: " && r.body.text[18..18 + |what|] == what
    ensures r.body.text[18 + |what|..] == "'"
    ensures r.version == req.version && r.keepAlive == req.keepAlive && r.contentType == "text/html"
  {
    TextResponse(InternalServerError, req, "An error occured: " + what + "'")
  }

  /**
    The response to one request. `fs` is the outcome of opening each local path;
    it is consulted only for the one path the request resolves to.
   */
  function HandleRequest(root: string, req: Request, fs: string -> OpenResult): (r: Response)
    ensures r.version == req.version && r.keepAlive == req.keepAlive
    ensures !KnownMethod(req.verb) ==> r == BadRequestResponse(req, "Unknown HTTP-method")
    ensures KnownMethod(req.verb) && !LegalTarget(req.target) ==>
      r == BadRequestResponse(req, "Illegal request-target")
    ensures r.status == BadRequest <==> !KnownMethod(req.verb) || !LegalTarget(req.target)
    ensures r.status == NotFound <==>
      KnownMethod(req.verb) && LegalTarget(req.target) && fs(FilePath(root, req.target)).NoSuchFile?
    ensures r.status == NotFound ==> r == NotFoundResponse(req, req.target)
    ensures r.status == InternalServerError <==>
      KnownMethod(req.verb) && LegalTarget(req.target) && fs(FilePath(root, req.target)).OpenFailed?
    ensures r.status == InternalServerError ==>
      r == ServerErrorResponse(req, fs(FilePath(root, req.target)).message)
    ensures r.status == Ok <==>
      KnownMethod(req.verb) && LegalTarget(req.target) && fs(FilePath(root, req.target)).Opened?
    ensures r.status == Ok ==>
      var path := FilePath(root, req.target);
      && r.contentLength == fs(path).size
      && r.contentType == MimeType(path)
      && r.body == (if req.verb == Head then EmptyBody else FileBody(path))
  {
    if !KnownMethod(req.verb) then
      BadRequestResponse(req, "Unknown HTTP-method")
    else if !LegalTarget(req.target) then
      BadRequestResponse(req, "Illegal request-target")
    else
      var path := FilePath(root, req.target);
      match fs(path)
      case NoSuchFile => NotFoundResponse(req, req.target)
      case OpenFailed(message) => ServerErrorResponse(req, message)
      case Opened(size) =>
        var body := if req.verb == Head then EmptyBody else FileBody(path);
        Response(Ok, req.version, req.keepAlive, MimeType(path), size, body)
  }

  /** Whether the connection has to be closed once the response is written. */
  predicate NeedEof(r: Response)
  {
    !r.keepAlive
  }
}
