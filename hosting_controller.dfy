/** The handler that hands out the files of a built prototype: it takes the
    part of the request path after `/prototype/<id>/`, asks the build service
    for the file, and sends it with a content type guessed from the extension
    and open CORS headers, or answers 404. The extension-to-type table
    (`mime-types`' `lookup`) is an oracle. */
module HostingController {
  import opened Results
  import opened Text
  import opened FileTree
  import BuildService

  /** `lookup(ext)`: the content type registered for an extension, or `None`
      where the library answers `false`. */
  type MimeLookup = string -> Option<string>

  const RoutePrefix: string := "/prototype/"
  const FileNotFound: string := "File not found"
  const OctetStream: string := "application/octet-stream"

  datatype HostResponse =
    | Failed(status: nat, error: string)
    | Sent(headers: seq<(string, string)>, data: Bytes)

  /** The headers of a served file: the content type first, then CORS headers
      that let any origin `GET` it; no header is set twice. */
  function Headers(contentType: string): (h: seq<(string, string)>)
    ensures |h| >= 1 && h[0] == ("Content-Type", contentType)
    ensures ("Access-Control-Allow-Origin", "*") in h && ("Access-Control-Allow-Methods", "GET") in h
    ensures forall i, j :: 0 <= i < j < |h| ==> h[i].0 != h[j].0
  {
    [("Content-Type", contentType),
     ("Access-Control-Allow-Origin", "*"),
     ("Access-Control-Allow-Methods", "GET"),
     ("Access-Control-Allow-Headers", "Content-Type")]
  }

  /** `lookup(ext) || 'application/octet-stream'`. */
  function ContentType(lookup: MimeLookup, ext: string): (t: string)
    ensures Truthy(lookup(ext)) ==> t == lookup(ext).value
    ensures !Truthy(lookup(ext)) ==> t == OctetStream
  {
    if Truthy(lookup(ext)) then lookup(ext).value else OctetStream
  }

  // ---------------------------------------------------------------------------
  // The request path

  /** What follows `/prototype/<id>` and one more character, or `""` when the
      path does not start that way; `substring` past the end gives `""`. */
  function RequestPath(fullPath: string, id: string): (rp: string)
    ensures var prefix := RoutePrefix + id;
      && (!StartsWith(fullPath, prefix) || |fullPath| <= |prefix| + 1 ==> rp == "")
      && (StartsWith(fullPath, prefix) && |fullPath| > |prefix| ==> fullPath == prefix + [fullPath[|prefix|]] + rp)
  {
    var prefix := RoutePrefix + id;
    if !StartsWith(fullPath, prefix) || |fullPath| <= |prefix| + 1 then ""
    else
      assert fullPath == fullPath[..|prefix|] + [fullPath[|prefix|]] + fullPath[|prefix| + 1..];
      fullPath[|prefix| + 1..]
  }

  /** The prototype's own URL, with or without the final `/`, asks for the
      empty path; anything after `/prototype/<id>/` is the path asked for. */
  lemma RequestPathOf(id: string, rest: string)
    ensures RequestPath(RoutePrefix + id, id) == ""
    ensures RequestPath(RoutePrefix + id + "/" + rest, id) == rest
  {
    var prefix := RoutePrefix + id;
    assert StartsWith(RoutePrefix + id, prefix);
    var full := prefix + "/" + rest;
    assert full[..|prefix|] == prefix;
    assert full[|prefix| + 1..] == rest;
  }

  // ---------------------------------------------------------------------------
  // Extensions

  /** The path without its trailing `/` characters. */
  function StripTrailing(p: string): (q: string)
    ensures StartsWith(p, q) && (q == "" || q[|q| - 1] != '/')
    decreases |p|
  {
    if p != "" && p[|p| - 1] == '/' then StripTrailing(p[..|p| - 1]) else p
  }

  /** The index of the last `c` in `s`, or -1 when there is none. */
  function LastIndex(s: string, c: char): (i: int)
    ensures -1 <= i < |s| && (i >= 0 ==> s[i] == c)
    ensures forall j :: i < j < |s| ==> s[j] != c
    decreases |s|
  {
    if s == "" then -1
    else if s[|s| - 1] == c then |s| - 1
    else LastIndex(s[..|s| - 1], c)
  }

  /** A `c` with none after it, or no `c` at all, is the last one. */
  lemma {:induction false} LastIndexIs(s: string, c: char, i: int)
    requires -1 <= i < |s| && (i >= 0 ==> s[i] == c)
    requires forall j :: i < j < |s| ==> s[j] != c
    ensures LastIndex(s, c) == i
    decreases |s|
  {
    if |s| - 1 != i {
      assert s[|s| - 1] != c;
      LastIndexIs(s[..|s| - 1], c, i);
    }
  }

  /** The last entry of a path, trailing `/` characters ignored. */
  function BaseName(p: string): (base: string)
    ensures var path := StripTrailing(p);
      |base| <= |path| && base == path[|path| - |base|..]
    ensures forall i :: 0 <= i < |base| ==> base[i] != '/'
  {
    var path := StripTrailing(p);
    path[LastIndex(path, '/') + 1..]
  }

  /** The extension of one entry: from its last `.`, unless that `.` starts the
      entry or the entry is `..`. */
  function BaseExt(base: string): (ext: string)
    ensures |ext| <= |base| && ext == base[|base| - |ext|..]
    ensures ext != "" ==> ext[0] == '.' && forall i :: 1 <= i < |ext| ==> ext[i] != '.'
    ensures (forall i :: 0 <= i < |base| ==> base[i] != '/') ==> forall i :: 0 <= i < |ext| ==> ext[i] != '/'
  {
    var dot := LastIndex(base, '.');
    if dot <= 0 || base == ".." then ""
    else
      assert forall i :: 0 <= i < |base| - dot ==> base[dot..][i] == base[dot + i];
      base[dot..]
  }

  /** `path.extname`: the extension of the last entry. */
  function ExtName(p: string): (ext: string)
    ensures ext != "" ==> ext[0] == '.' && forall i :: 1 <= i < |ext| ==> ext[i] != '.' && ext[i] != '/'
  {
    BaseExt(BaseName(p))
  }

  /** The last entry after a directory part ending in `/`. */
  lemma BaseNameOf(dir: string, base: string)
    requires dir == "" || dir[|dir| - 1] == '/'
    requires base != "" && forall i :: 0 <= i < |base| ==> base[i] != '/'
    ensures BaseName(dir + base) == base
  {
    var p := dir + base;
    assert p[|p| - 1] == base[|base| - 1];
    assert StripTrailing(p) == p;
    assert forall j :: |dir| <= j < |p| ==> p[j] == base[j - |dir|];
    LastIndexIs(p, '/', |dir| - 1);
    assert p[|dir|..] == base;
  }

  lemma BaseExtOf(stem: string, e: string)
    requires forall i :: 0 <= i < |e| ==> e[i] != '.'
    requires stem != "" && stem != "."
    ensures BaseExt(stem + "." + e) == "." + e
  {
    var base := stem + "." + e;
    assert base[..|stem|] == stem;
    assert forall j :: |stem| < j < |base| ==> base[j] == e[j - |stem| - 1];
    LastIndexIs(base, '.', |stem|);
    assert base[|stem|..] == "." + e;
  }

  /** A name with a stem before its last `.` has the extension from that dot,
      whatever directories precede it. */
  lemma ExtNameOf(dir: string, name: string, stem: string, e: string)
    requires dir == "" || dir[|dir| - 1] == '/'
    requires name == stem + "." + e
    requires forall i :: 0 <= i < |name| ==> name[i] != '/'
    requires forall i :: 0 <= i < |e| ==> e[i] != '.'
    requires stem != "" && stem != "."
    ensures ExtName(dir + name) == "." + e
  {
    BaseNameOf(dir, name);
    BaseExtOf(stem, e);
  }

  /** Names without a dot, the bare root and `..` have no extension. */
  lemma NoExtension(name: string)
    requires forall i :: 0 <= i < |name| ==> name[i] != '.' && name[i] != '/'
    ensures ExtName(name) == "" && ExtName("/") == "" && ExtName("..") == ""
  {
    assert StripTrailing(name) == name;
    LastIndexIs(name, '/', -1);
    assert name[0..] == name;
    LastIndexIs(name, '.', -1);
    assert StripTrailing("/") == "";
    assert StripTrailing("..") == "..";
    LastIndexIs("..", '/', -1);
    assert ".."[0..] == "..";
  }

  // ---------------------------------------------------------------------------
  // The handler

  /** `servePrototype` as written: the type comes from the request path, or
      from `index.html` when the path is empty. */
  function Handle(svc: BuildService.BuildService, fullPath: string, id: string, lookup: MimeLookup): (resp: HostResponse)
    reads svc
    ensures var served := svc.Serve(id, RequestPath(fullPath, id));
      && (resp.Failed? <==> served.None?)
      && (resp.Failed? ==> resp == Failed(404, FileNotFound))
      && (resp.Sent? ==> resp.data == served.value)
  {
    var requestPath := RequestPath(fullPath, id);
    match svc.Serve(id, requestPath)
    case None => Failed(404, FileNotFound)
    case Some(data) =>
      var ext := ExtName(if requestPath == "" then BuildService.IndexHtml else requestPath);
      Sent(Headers(ContentType(lookup, ext)), data)
  }

  /** `servePrototype` with the type taken from the name of the file actually
      sent, so that a directory's `index.html` goes out as HTML. */
  function HandleServedType(svc: BuildService.BuildService, fullPath: string, id: string, lookup: MimeLookup): (resp: HostResponse)
    reads svc
    ensures var requestPath := RequestPath(fullPath, id);
      var served := svc.Serve(id, requestPath);
      && (resp.Failed? <==> served.None?)
      && (resp.Failed? ==> resp == Failed(404, FileNotFound))
      && (resp.Sent? ==> resp == Sent(Headers(ContentType(lookup, ExtName(LastEntry(svc.ServedPath(id, requestPath).value)))), served.value))
  {
    var requestPath := RequestPath(fullPath, id);
    var p := svc.ServedPath(id, requestPath);
    if p.Some? && IsFile(svc.files, p.value) then
      Sent(Headers(ContentType(lookup, ExtName(LastEntry(p.value)))), svc.FileAt(p.value).value)
    else Failed(404, FileNotFound)
  }

  /** The name of the entry a path leads to. */
  function LastEntry(p: Path): string {
    if p == [] then "" else p[|p| - 1]
  }

  const HtmlExt: string := ".html"

  lemma IndexHtmlExt()
    ensures ExtName(BuildService.IndexHtml) == HtmlExt
  {
    var name := BuildService.IndexHtml;
    var stem, e := name[..5], name[6..];
    assert name[5] == '.';
    assert name == stem + "." + e;
    assert "" + name == name;
    ExtNameOf("", name, stem, e);
    assert "." + e == HtmlExt;
  }

  /** The prototype's own URL sends its `index.html` as HTML. */
  lemma HandleRoot(svc: BuildService.BuildService, id: string, lookup: MimeLookup)
    requires BuildService.PlainSegment(id)
    requires IsFile(svc.files, BuildService.OutputDir(id) + [BuildService.IndexHtml])
    ensures Handle(svc, RoutePrefix + id, id, lookup) ==
      Sent(Headers(ContentType(lookup, HtmlExt)), svc.FileAt(BuildService.OutputDir(id) + [BuildService.IndexHtml]).value)
  {
    RequestPathOf(id, "");
    svc.ServeIndex(id, "");
    IndexHtmlExt();
  }

  /** A file under the prototype's URL is sent with the type of its extension. */
  lemma HandleFile(svc: BuildService.BuildService, id: string, segs: seq<string>, stem: string, e: string, lookup: MimeLookup)
    requires BuildService.PlainSegment(id) && |segs| >= 1
    requires forall i :: 0 <= i < |segs| ==> BuildService.PlainSegment(segs[i])
    requires segs[|segs| - 1] == stem + "." + e && stem != "" && stem != "." && '.' !in e
    requires IsFile(svc.files, BuildService.OutputDir(id) + segs)
    ensures Handle(svc, RoutePrefix + id + "/" + Join(segs, '/'), id, lookup) ==
      Sent(Headers(ContentType(lookup, "." + e)), svc.FileAt(BuildService.OutputDir(id) + segs).value)
  {
    var rp := Join(segs, '/');
    RequestPathOf(id, rp);
    svc.ServeFile(id, segs);
    svc.PlainJoinEnd(segs);
    JoinedExt(segs, stem, e);
  }

  /** The extension of a joined path is that of its last entry. */
  lemma JoinedExt(segs: seq<string>, stem: string, e: string)
    requires |segs| >= 1 && segs[|segs| - 1] == stem + "." + e
    requires forall i :: 0 <= i < |segs| ==> BuildService.PlainSegment(segs[i])
    requires stem != "" && stem != "." && '.' !in e
    ensures ExtName(Join(segs, '/')) == "." + e
  {
    var last := segs[|segs| - 1];
    assert BuildService.PlainSegment(last);
    forall i | 0 <= i < |last| ensures last[i] != '/' {
      assert last[i] in last;
    }
    forall i | 0 <= i < |e| ensures e[i] != '.' {
      assert e[i] in e;
    }
    if |segs| == 1 {
      assert Join(segs, '/') == "" + last;
      ExtNameOf("", last, stem, e);
    } else {
      JoinLast(segs, '/');
      var dir := Join(segs[..|segs| - 1], '/') + ['/'];
      assert Join(segs, '/') == dir + last;
      ExtNameOf(dir, last, stem, e);
    }
  }

  /** As written, a URL naming a directory of the prototype sends the
      top-level `index.html` typed by the directory's name: with no dot in the
      name, the type is the one registered for `""`, which `mime-types` does
      not have, so the page goes out as `application/octet-stream`. */
  lemma DirectorySentAsOctetStream(svc: BuildService.BuildService, id: string, name: string, lookup: MimeLookup)
    requires BuildService.PlainSegment(id) && BuildService.PlainSegment(name) && '.' !in name
    requires IsDir(svc.files, BuildService.OutputDir(id) + [name])
    requires IsFile(svc.files, BuildService.OutputDir(id) + [BuildService.IndexHtml])
    requires lookup("").None?
    ensures Handle(svc, RoutePrefix + id + "/" + name, id, lookup) ==
      Sent(Headers(OctetStream), svc.FileAt(BuildService.OutputDir(id) + [BuildService.IndexHtml]).value)
  {
    assert Join([name], '/') == name;
    RequestPathOf(id, name);
    assert RequestPath(RoutePrefix + id + "/" + name, id) == name;
    svc.ServeSubdirectory(id, [name]);
    assert svc.Serve(id, name) == svc.FileAt(BuildService.OutputDir(id) + [BuildService.IndexHtml]);
    forall i | 0 <= i < |name| ensures name[i] != '.' && name[i] != '/' {
      assert name[i] in name;
    }
    NoExtension(name);
    assert ContentType(lookup, ExtName(name)) == OctetStream;
  }

  /** Typed by the file sent, the same request goes out as HTML. */
  lemma DirectorySentAsHtml(svc: BuildService.BuildService, id: string, name: string, lookup: MimeLookup)
    requires BuildService.PlainSegment(id) && BuildService.PlainSegment(name)
    requires IsDir(svc.files, BuildService.OutputDir(id) + [name])
    requires IsFile(svc.files, BuildService.OutputDir(id) + [BuildService.IndexHtml])
    ensures HandleServedType(svc, RoutePrefix + id + "/" + name, id, lookup) ==
      Sent(Headers(ContentType(lookup, HtmlExt)), svc.FileAt(BuildService.OutputDir(id) + [BuildService.IndexHtml]).value)
  {
    var index := BuildService.OutputDir(id) + [BuildService.IndexHtml];
    assert Join([name], '/') == name;
    RequestPathOf(id, name);
    assert RequestPath(RoutePrefix + id + "/" + name, id) == name;
    svc.ServedPathPlain(id, [name]);
    assert svc.ServedPath(id, name) == Some(index);
    assert LastEntry(index) == BuildService.IndexHtml;
    IndexHtmlExt();
  }
}
