/** scripts/serve-content.js: the development server for the content directory:
    the MIME lookup, the request path sanitising, the status decisions, and the
    port argument. */
module ServeContent {
  import opened TextUtil

  // ---------------------------------------------------------------------
  // MIME types.

  const MimeTypes: map<string, string> := map[
    ".html" := "text/html", ".css" := "text/css", ".js" := "application/javascript",
    ".json" := "application/json", ".png" := "image/png", ".jpg" := "image/jpeg",
    ".jpeg" := "image/jpeg", ".gif" := "image/gif", ".svg" := "image/svg+xml",
    ".webp" := "image/webp", ".ico" := "image/x-icon", ".pdf" := "application/pdf",
    ".md" := "text/markdown", ".txt" := "text/plain", ".xml" := "application/xml",
    ".woff" := "font/woff", ".woff2" := "font/woff2", ".ttf" := "font/ttf", ".otf" := "font/otf"]

  const OctetStream: string := "application/octet-stream"

  /** `path.extname` of a path without a trailing separator: the last segment
      from its last dot, or "" when that segment has no dot after its first
      character (a dotfile), or is "..". */
  function ExtName(path: string): (ext: string)
    ensures ext == "" || (ext[0] == '.' && EndsWith(path, ext) && '/' !in ext)
  {
    var base := path[LastIndexOfChar(path, '/') + 1..];
    var dot := LastIndexOfChar(base, '.');
    if dot <= 0 || base == ".." then ""
    else
      assert path[|path| - |base[dot..]|..] == base[dot..];
      base[dot..]
  }

  /** getMimeType: the type of the lower-cased extension, or
      "application/octet-stream" for an unknown one. */
  function GetMimeType(path: string): (r: string)
    ensures Lower(ExtName(path)) in MimeTypes ==> r == MimeTypes[Lower(ExtName(path))]
    ensures Lower(ExtName(path)) !in MimeTypes ==> r == OctetStream
  {
    var ext := Lower(ExtName(path));
    if ext in MimeTypes then MimeTypes[ext] else OctetStream
  }

  /** The type of a file `<stem>.<ext>` is looked up by its extension in lower
      case, so "photo.PNG" is served as "image/png". */
  lemma {:induction false} MimeTypeOfFile(dir: string, stem: string, ext: string)
    requires '/' !in stem && '.' !in stem && stem != "" && '/' !in ext && '.' !in ext
    ensures var key := Lower("." + ext);
            GetMimeType(dir + "/" + stem + "." + ext) == if key in MimeTypes then MimeTypes[key] else OctetStream
  {
    ExtOfName(dir, stem, ext);
  }

  /** A file `<stem>.<ext>` in a directory has extension `.<ext>`. */
  lemma {:induction false} ExtOfName(dir: string, stem: string, ext: string)
    requires '/' !in stem && '.' !in stem && stem != "" && '/' !in ext && '.' !in ext
    ensures ExtName(dir + "/" + stem + "." + ext) == "." + ext
  {
    var p := dir + "/" + stem + "." + ext;
    var k := LastIndexOfChar(p, '/');
    assert p[|dir|] == '/';
    NoSlashAfter(dir, stem, ext);
    assert k == |dir|;
    var base := p[k + 1..];
    assert base == stem + "." + ext;
    var dot := LastIndexOfChar(base, '.');
    assert base[|stem|] == '.';
    NoDotAfter(stem, ext);
    assert dot == |stem|;
    assert base[0] == stem[0] && base != "..";
    assert base[dot..] == "." + ext;
  }

  lemma NoSlashAfter(dir: string, stem: string, ext: string)
    requires '/' !in stem && '/' !in ext
    ensures var p := dir + "/" + stem + "." + ext;
            forall j :: |dir| < j < |p| ==> p[j] != '/'
  {
    var p := dir + "/" + stem + "." + ext;
    forall j | |dir| < j < |p| ensures p[j] != '/' {
      if j <= |dir| + |stem| {
        assert p[j] == stem[j - |dir| - 1];
      } else if j > |dir| + |stem| + 1 {
        assert p[j] == ext[j - |dir| - |stem| - 2];
      }
    }
  }

  lemma NoDotAfter(stem: string, ext: string)
    requires '.' !in ext
    ensures var b := stem + "." + ext;
            forall j :: |stem| < j < |b| ==> b[j] != '.'
  {
    var b := stem + "." + ext;
    forall j | |stem| < j < |b| ensures b[j] != '.' {
      assert b[j] == ext[j - |stem| - 1];
    }
  }

  // ---------------------------------------------------------------------
  // The request path.

  /** No two dots next to each other. */
  predicate NoDoubleDot(s: string) {
    forall i :: 0 <= i < |s| - 1 ==> !(s[i] == '.' && s[i + 1] == '.')
  }

  /** `replace(/\.\./g, "")`: every ".." found scanning from the left is removed,
      so each run of dots keeps one dot when its length is odd and none when even. */
  function StripDots(s: string): (r: string)
    ensures NoDoubleDot(r)
    ensures s != [] && s[0] != '.' ==> r != [] && r[0] == s[0]
    ensures |r| <= |s|
    decreases |s|
  {
    if |s| >= 2 && s[0] == '.' && s[1] == '.' then StripDots(s[2..])
    else if s == [] then []
    else
      var rest := StripDots(s[1..]);
      [s[0]] + rest
  }

  /** The characters other than dots. */
  function NonDots(s: string): (r: string)
    ensures '.' !in r
  {
    if s == [] then [] else (if s[0] == '.' then [] else [s[0]]) + NonDots(s[1..])
  }

  /** Stripping removes dots and nothing else. */
  lemma {:induction false} StripKeepsOtherChars(s: string)
    ensures NonDots(StripDots(s)) == NonDots(s)
    decreases |s|
  {
    if |s| >= 2 && s[0] == '.' && s[1] == '.' {
      StripKeepsOtherChars(s[2..]);
      assert NonDots(s) == NonDots(s[1..]) && NonDots(s[1..]) == NonDots(s[2..]);
    } else if s != [] {
      StripKeepsOtherChars(s[1..]);
      assert ([s[0]] + StripDots(s[1..]))[1..] == StripDots(s[1..]);
    }
  }

  /** A path without ".." is left as it is, so stripping twice is stripping once. */
  lemma {:induction false} StripNoDoubleDot(s: string)
    requires NoDoubleDot(s)
    ensures StripDots(s) == s
    decreases |s|
  {
    if s != [] {
      StripNoDoubleDot(s[1..]);
    }
  }

  lemma StripIdempotent(s: string)
    ensures StripDots(StripDots(s)) == StripDots(s)
  {
    StripNoDoubleDot(StripDots(s));
  }

  /** After stripping, ".." occurs nowhere in the path. */
  lemma NoParentSegments(s: string)
    ensures !Contains(StripDots(s), "..")
  {
    NoDoubleDotNoParent(StripDots(s));
  }

  /** A text without two adjacent dots does not contain "..". */
  lemma NoDoubleDotNoParent(r: string)
    requires NoDoubleDot(r)
    ensures !Contains(r, "..")
  {
    forall j ensures !OccursAt(r, "..", j) {
      if OccursAt(r, "..", j) {
        DotsAt(r, j);
      }
    }
  }

  lemma DotsAt(r: string, j: int)
    requires OccursAt(r, "..", j)
    ensures r[j] == '.' && r[j + 1] == '.'
  {
    assert r[j] == r[j..j + 2][0] && r[j + 1] == r[j..j + 2][1];
  }

  /** The path to look up: stripped, with "/" meaning "/index.html". */
  function RequestPath(decoded: string): (p: string)
    ensures !Contains(p, "..")
    ensures StripDots(decoded) == "/" ==> p == "/index.html"
    ensures StripDots(decoded) != "/" ==> p == StripDots(decoded)
  {
    var p := StripDots(decoded);
    NoParentSegments(decoded);
    if p == "/" then
      assert NoDoubleDot("/index.html");
      NoDoubleDotNoParent("/index.html");
      "/index.html"
    else p
  }

  // ---------------------------------------------------------------------
  // The response.

  /** What `stat` finds at a path: a regular file of some size, a directory, or
      an error with its code ("ENOENT" when there is nothing there). */
  datatype Node = FileNode(size: nat) | DirNode | Failing(code: string)

  /** The content directory as the server sees it: absolute path to node; a path
      that is absent has nothing at it. */
  type FileSystem = map<string, Node>

  function StatAt(fs: FileSystem, path: string): Node {
    if path in fs then fs[path] else Failing("ENOENT")
  }

  datatype Body = Empty | Text(text: string) | FileBytes(path: string)

  /** The response, or `NoResponse` when decoding the path throws before the
      `try` and the request is left unanswered. */
  datatype Response = Response(status: int, headers: seq<(string, string)>, body: Body) | NoResponse

  const Cors: seq<(string, string)> := [
    ("Access-Control-Allow-Origin", "*"),
    ("Access-Control-Allow-Methods", "GET, HEAD, OPTIONS"),
    ("Access-Control-Allow-Headers", "Content-Type")]

  function PlainText(status: int, text: string): Response {
    Response(status, Cors + [("Content-Type", "text/plain")], Text(text))
  }

  /** handleRequest. `decoded` is `decodeURIComponent` of the URL's path (`None`
      when it throws); `join` is `path.join`; `contentDir` is CONTENT_DIR. */
  method HandleRequest(httpMethod: string, decoded: Option<string>, contentDir: string,
                       join: (string, string) -> string, fs: FileSystem)
    returns (resp: Response)
    ensures httpMethod == "OPTIONS" ==> resp == Response(204, Cors, Empty)
    ensures httpMethod != "OPTIONS" && httpMethod != "GET" && httpMethod != "HEAD" ==>
              resp == PlainText(405, "Method Not Allowed")
    ensures (httpMethod == "GET" || httpMethod == "HEAD") && decoded.None? ==> resp == NoResponse
    ensures (httpMethod == "GET" || httpMethod == "HEAD") && decoded.Some? ==>
              var full := join(contentDir, RequestPath(decoded.value));
              if !StartsWith(full, contentDir) then resp == PlainText(403, "Forbidden")
              else match StatAt(fs, full)
                case DirNode =>
                  var index := join(full, "index.html");
                  if StatAt(fs, index).FileNode? then resp == Response(200, Cors + [("Content-Type", "text/html")], FileBytes(index))
                  else resp == PlainText(404, "Not Found")
                case FileNode(size) =>
                  resp == Response(200, Cors + [("Content-Type", GetMimeType(full)), ("Content-Length", IntToString(size))], FileBytes(full))
                case Failing(code) =>
                  resp == if code == "ENOENT" then PlainText(404, "Not Found") else PlainText(500, "Internal Server Error")
    ensures resp.Response? ==> resp.headers[..3] == Cors
  {
    var headers := Cors;
    if httpMethod == "OPTIONS" {
      return Response(204, headers, Empty);
    }
    if httpMethod != "GET" && httpMethod != "HEAD" {
      return Response(405, headers + [("Content-Type", "text/plain")], Text("Method Not Allowed"));
    }
    if decoded.None? {
      return NoResponse;
    }
    var filePath := decoded.value;
    filePath := StripDots(filePath);
    if filePath == "/" {
      filePath := "/index.html";
    }
    var fullPath := join(contentDir, filePath);
    if !StartsWith(fullPath, contentDir) {
      return Response(403, headers + [("Content-Type", "text/plain")], Text("Forbidden"));
    }
    var fileStat := StatAt(fs, fullPath);
    if fileStat.Failing? {
      if fileStat.code == "ENOENT" {
        return Response(404, headers + [("Content-Type", "text/plain")], Text("Not Found"));
      }
      return Response(500, headers + [("Content-Type", "text/plain")], Text("Internal Server Error"));
    }
    if fileStat.DirNode? {
      var indexPath := join(fullPath, "index.html");
      if StatAt(fs, indexPath).FileNode? {
        return Response(200, headers + [("Content-Type", "text/html")], FileBytes(indexPath));
      }
      return Response(404, headers + [("Content-Type", "text/plain")], Text("Not Found"));
    }
    var mimeType := GetMimeType(fullPath);
    return Response(200, headers + [("Content-Type", mimeType), ("Content-Length", IntToString(fileStat.size))],
                    FileBytes(fullPath));
  }

  // ---------------------------------------------------------------------
  // The port argument.

  const DefaultPort: int := 4000

  /** `parseInt(s, 10)`: leading white space, an optional sign, then the longest
      run of decimal digits; `None` (NaN) when there is no digit. */
  function ParseIntPrefix(s: string): (r: Option<int>)
  {
    var t := TrimStart(s);
    var neg := |t| > 0 && t[0] == '-';
    var u := if |t| > 0 && (t[0] == '-' || t[0] == '+') then t[1..] else t;
    var digits := DigitPrefix(u);
    if digits == [] then None
    else
      var v: int := ParseDigits(digits);
      Some(if neg then -v else v)
  }

  /** The leading decimal digits of a text. */
  function DigitPrefix(s: string): (r: string)
    ensures AllDigits(r) && StartsWith(s, r)
    ensures |r| < |s| ==> !IsDigit(s[|r|])
  {
    if s == [] || !IsDigit(s[0]) then [] else [s[0]] + DigitPrefix(s[1..])
  }

  /** `parseInt(process.argv[3], 10) || 4000`: a missing argument, one without
      digits, or one that reads as 0 gives the default port. */
  function Port(arg: Option<string>): (p: int)
    ensures arg.None? ==> p == DefaultPort
    ensures arg.Some? && (ParseIntPrefix(arg.value).None? || ParseIntPrefix(arg.value) == Some(0)) ==> p == DefaultPort
    ensures arg.Some? && ParseIntPrefix(arg.value).Some? && ParseIntPrefix(arg.value) != Some(0) ==> p == ParseIntPrefix(arg.value).value
  {
    if arg.None? then DefaultPort
    else
      var n := ParseIntPrefix(arg.value);
      if n.None? || n.value == 0 then DefaultPort else n.value
  }

  /** A port written in decimal is the port used, unless it is 0. */
  lemma {:induction false} PortRoundTrip(n: nat)
    ensures Port(Some(NatToString(n))) == if n == 0 then DefaultPort else n
  {
    var s := NatToString(n);
    assert TrimStart(s) == s by {
      assert IsDigit(s[0]);
    }
    DigitsArePrefix(s);
    ParseNatToString(n);
  }

  lemma {:induction false} DigitsArePrefix(s: string)
    requires AllDigits(s)
    ensures DigitPrefix(s) == s
  {
    if s != [] {
      DigitsArePrefix(s[1..]);
    }
  }
}
