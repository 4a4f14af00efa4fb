/** The build pipeline behind prototype hosting. It clones a prototype's
    repository into a scratch directory and decides whether it is a React or a
    static project. It then builds it or copies it into the prototype's output
    directory, records the outcome in the build history, and serves the built
    files.

    The build-artifacts directory is a `FileTree.Node`. Child processes are an
    oracle that maps an invocation and the tree before it to the output chunks
    the process wrote, how it ended, and the tree after it. Parsing
    `package.json` is an oracle from bytes to the dependency entries it reads. */
module BuildService {
  import opened Results
  import opened Text
  import opened FileTree
  import PrototypeStore

  // ---------------------------------------------------------------------------
  // Child processes

  datatype Invocation = Invocation(command: string, args: seq<string>, cwd: Option<Path>)

  /** A process either closes, with an exit code (`null` when a signal ended it),
      or fails to start. */
  datatype Ending = Exited(code: Option<nat>) | StartFailed(reason: string)

  /** What the runner observed: the stdout and stderr chunks in arrival order,
      then the ending. */
  datatype ProcessRun = ProcessRun(chunks: seq<string>, ending: Ending)

  /** The runner: the process's run and the tree it leaves behind. */
  type Runner = (Invocation, Node) -> (ProcessRun, Node)

  /** The chunks joined in arrival order. */
  function Concat(chunks: seq<string>): string
  {
    if chunks == [] then "" else Concat(chunks[..|chunks| - 1]) + chunks[|chunks| - 1]
  }

  function ExitCodeText(code: Option<nat>): string {
    if code.Some? then NatToString(code.value) else "null"
  }

  /** How `runCommand` settles: with everything the process wrote when it exits
      with code 0, otherwise with an error naming the command and the exit code
      and carrying the output, or the reason the process could not start. */
  function RunOutcome(command: string, run: ProcessRun): (r: Result<string>)
    ensures r.Ok? <==> run.ending == Exited(Some(0))
    ensures r.Ok? ==> r.value == Concat(run.chunks)
    ensures run.ending.Exited? && r.Err? ==>
      StartsWith(r.message, command + " failed with exit code " + ExitCodeText(run.ending.code) + "\n")
      && EndsWith(r.message, Concat(run.chunks))
    ensures run.ending.StartFailed? ==>
      StartsWith(r.message, "Failed to start " + command + ": ")
      && EndsWith(r.message, run.ending.reason)
  {
    match run.ending
    case StartFailed(reason) => Err("Failed to start " + command + ": " + reason)
    case Exited(code) =>
      if code == Some(0) then Ok(Concat(run.chunks))
      else
        var head := command + " failed with exit code " + ExitCodeText(code) + "\n";
        assert (head + Concat(run.chunks))[..|head|] == head;
        Err(head + Concat(run.chunks))
  }

  function Clone(url: string, target: string): Invocation {
    Invocation("git", ["clone", url, target], None)
  }

  function Install(src: Path): Invocation {
    Invocation("npm", ["install"], Some(src))
  }

  function NpmBuild(src: Path): Invocation {
    Invocation("npm", ["run", "build"], Some(src))
  }

  // ---------------------------------------------------------------------------
  // Project type

  /** The two dependency maps of `package.json`, each entry reduced to whether its
      value is truthy. */
  datatype Manifest = Manifest(dependencies: map<string, bool>, devDependencies: map<string, bool>)

  type ManifestParser = Bytes -> Option<Manifest>

  /** `{ ...dependencies, ...devDependencies }`: a development entry overrides a
      runtime entry of the same name. */
  function MergedDependencies(m: Manifest): (d: map<string, bool>)
    ensures d.Keys == m.dependencies.Keys + m.devDependencies.Keys
    ensures forall k :: k in m.devDependencies ==> d[k] == m.devDependencies[k]
    ensures forall k :: k in m.dependencies && k !in m.devDependencies ==> d[k] == m.dependencies[k]
  {
    m.dependencies + m.devDependencies
  }

  predicate NamesReact(m: Manifest) {
    var d := MergedDependencies(m);
    ("react" in d && d["react"]) || ("@types/react" in d && d["@types/react"])
  }

  datatype ProjectType = React | Static | Unknown

  const PackageJson: string := "package.json"
  const IndexHtml: string := "index.html"

  /** `package.json` under `dir` is a readable file that parses to a manifest
      naming React. */
  predicate ReactManifest(parse: ManifestParser, t: Node, dir: Path) {
    var entry := Get(t, dir + [PackageJson]);
    entry.Some? && entry.value.File? && parse(entry.value.data).Some? && NamesReact(parse(entry.value.data).value)
  }

  /** Listing `dir` succeeds and shows an entry called `index.html`. */
  predicate ListsIndex(t: Node, dir: Path) {
    IsDir(t, dir) && IndexHtml in Get(t, dir).value.children
  }

  /** `detectProjectType`: a manifest naming React wins, even when `index.html`
      is present. A manifest that is missing, unreadable or unparsable falls
      through to the listing, and a listing that fails gives `unknown`. */
  function DetectProjectType(parse: ManifestParser, t: Node, dir: Path): (kind: ProjectType)
    ensures kind == React <==> ReactManifest(parse, t, dir)
    ensures kind == Static <==> !ReactManifest(parse, t, dir) && ListsIndex(t, dir)
    ensures kind != Unknown ==> IsDir(t, dir)
  {
    if ReactManifest(parse, t, dir) then
      GetAppend(t, dir, [PackageJson]);
      React
    else if ListsIndex(t, dir) then Static
    else Unknown
  }

  /** The directory a React build left its output in: `build` before `dist`. */
  function BuildOutput(t: Node, src: Path): (out: Option<Path>)
    ensures out.Some? ==> IsDir(t, out.value)
    ensures IsDir(t, src + ["build"]) ==> out == Some(src + ["build"])
    ensures !IsDir(t, src + ["build"]) && IsDir(t, src + ["dist"]) ==> out == Some(src + ["dist"])
    ensures out.None? <==> !IsDir(t, src + ["build"]) && !IsDir(t, src + ["dist"])
  {
    if IsDir(t, src + ["build"]) then Some(src + ["build"])
    else if IsDir(t, src + ["dist"]) then Some(src + ["dist"])
    else None
  }

  // ---------------------------------------------------------------------------
  // Messages and places

  const StartLog: string := "Starting build process...\n"
  const ReactHeader: string := "Building React project...\n"
  const StaticHeader: string := "Copying static files...\n"
  const NoBuildOutput: string := "Build output directory not found (looked for /build and /dist)"
  const Unsupported: string := "Unsupported project type: unknown"
  /** The file-system error a failed `mkdir`, `readdir` or `copyFile` raises. */
  const CopyFailed: string := "EEXIST: file already exists"

  /** A name that `path.join` keeps as exactly one entry. */
  predicate PlainSegment(s: string) {
    s != "" && s != "." && s != ".." && '/' !in s
  }

  function TempDir(id: string): Path {
    ["temp", id]
  }

  function OutputDir(id: string): Path {
    [id]
  }

  lemma TempApartFromOutput(id: string)
    requires id != "temp"
    ensures Apart(TempDir(id), OutputDir(id))
  {
    assert TempDir(id)[0] != OutputDir(id)[0];
  }

  /** `path.join` of the pieces `segs` onto `base`: empty and `.` pieces vanish
      and `..` drops the last entry. Climbing above the build-artifacts
      directory leaves the modelled tree. Without `..` nothing climbs: the
      result extends `base`. */
  function Resolve(base: Path, segs: seq<string>): (r: Option<Path>)
    ensures r.Some? ==> |r.value| <= |base| + |segs|
    ensures ".." !in segs ==> r.Some? && base <= r.value
    decreases |segs|
  {
    if segs == [] then Some(base)
    else if segs[0] == "" || segs[0] == "." then Resolve(base, segs[1..])
    else if segs[0] == ".." then (if base == [] then None else Resolve(base[..|base| - 1], segs[1..]))
    else Resolve(base + [segs[0]], segs[1..])
  }

  /** Plain pieces are appended as they are. */
  lemma {:induction false} ResolvePlain(base: Path, segs: seq<string>)
    requires forall i :: 0 <= i < |segs| ==> PlainSegment(segs[i])
    ensures Resolve(base, segs) == Some(base + segs)
    decreases |segs|
  {
    if segs != [] {
      assert PlainSegment(segs[0]);
      assert Resolve(base, segs) == Resolve(base + [segs[0]], segs[1..]);
      ResolvePlain(base + [segs[0]], segs[1..]);
      assert base + [segs[0]] + segs[1..] == base + segs;
    } else {
      assert base + segs == base;
    }
  }

  /** `..` undoes the entry before it. */
  lemma ResolveUp(base: Path, name: string, segs: seq<string>)
    requires PlainSegment(name)
    ensures Resolve(base, [name, ".."] + segs) == Resolve(base, segs)
  {
    assert ([name, ".."] + segs)[1..] == [".."] + segs;
    assert ([".."] + segs)[1..] == segs;
    assert (base + [name])[..|base|] == base;
  }

  /** The tree a successful `copyDirectory(src, dst)` leaves behind. */
  function Copied(t: Node, src: Path, dst: Path): Node
    requires IsDir(t, src)
  {
    Put(t, dst, Merge(Get(t, dst), Get(t, src).value))
  }

  /** After the copy, every file under `src` is at the same relative path under
      `dst`, with the same bytes. */
  lemma CopiedFiles(t: Node, src: Path, dst: Path, q: Path)
    requires IsDir(t, src) && IsFile(t, src + q)
    ensures Get(Copied(t, src, dst), dst + q) == Get(t, src + q)
  {
    var m := Merge(Get(t, dst), Get(t, src).value);
    GetAppend(t, src, q);
    MergeCopiesFiles(Get(t, dst), Get(t, src).value, q);
    GetPut(t, dst, m);
    GetAppend(Copied(t, src, dst), dst, q);
  }

  /** After the copy, `dst` is a directory. */
  lemma CopiedIsDir(t: Node, src: Path, dst: Path)
    requires IsDir(t, src)
    ensures IsDir(Copied(t, src, dst), dst)
  {
    GetPut(t, dst, Merge(Get(t, dst), Get(t, src).value));
  }

  /** The copy leaves everything apart from `dst` alone, `src` included. */
  lemma CopiedElsewhere(t: Node, src: Path, dst: Path, q: Path)
    requires IsDir(t, src) && Apart(q, dst)
    ensures Get(Copied(t, src, dst), q) == Get(t, q)
  {
    GetPutApart(t, dst, q, Merge(Get(t, dst), Get(t, src).value));
  }

  /** One step of a build as the outside world sees it: a call into the
      prototype store, a child process, or the removal of the clone. */
  datatype Step = AddHistory | MarkBuilding | Ran(invocation: Invocation) | RemoveTemp | Complete(success: bool)

  /** Every step is a child process. */
  ghost predicate AllRan(steps: seq<Step>) {
    forall i :: 0 <= i < |steps| ==> steps[i].Ran?
  }

  /** A second write to the same key overwrites the first: the row and the
      prototype a build touches twice keep only their last value. */
  lemma Overwrite<K, V>(m: map<K, V>, k: K, first: V, last: V)
    ensures m[k := first][k := last] == m[k := last]
  {
  }

  // ---------------------------------------------------------------------------
  // The service

  class BuildService {
    const store: PrototypeStore.PrototypeService
    /** The build-artifacts directory as messages print it. */
    const artifactsDir: string
    const run: Runner
    const parse: ManifestParser
    /** The contents of the build-artifacts directory. */
    var files: Node
    /** Everything the service has done, in order. */
    ghost var trace: seq<Step>

    constructor(store: PrototypeStore.PrototypeService, artifactsDir: string, run: Runner, parse: ManifestParser, files: Node)
      ensures this.store == store && this.artifactsDir == artifactsDir
      ensures this.run == run && this.parse == parse
      ensures this.files == files && trace == []
    {
      this.store := store;
      this.artifactsDir := artifactsDir;
      this.run := run;
      this.parse := parse;
      this.files := files;
      trace := [];
    }

    /** A place under the build-artifacts directory: the directory as it was
        configured, then `/` and the entries joined by `/`. */
    function Show(p: Path): (s: string)
      ensures StartsWith(s, artifactsDir)
      ensures p != [] ==> |s| > |artifactsDir| && s[|artifactsDir|] == '/'
    {
      if p == [] then artifactsDir else artifactsDir + "/" + Join(p, '/')
    }

    /** The entries of a place can be read back from what follows the
        directory in the printed form. */
    lemma ShowReadsBack(p: Path)
      requires p != [] && forall i :: 0 <= i < |p| ==> '/' !in p[i]
      ensures Split(Show(p)[|artifactsDir| + 1..], '/') == p
    {
      var rest := Join(p, '/');
      assert (artifactsDir + "/" + rest)[|artifactsDir| + 1..] == rest;
      JoinSplit(p, '/');
    }

    function CopiedLine(what: string, src: Path, dst: Path): string {
      "Copied " + what + " from " + Show(src) + " to " + Show(dst) + "\n"
    }

    /** `runCommand`: start the process, collect its output chunk by chunk, and
        settle as `RunOutcome` says. */
    method RunCommand(command: string, args: seq<string>, cwd: Option<Path>) returns (r: Result<string>)
      modifies this
      ensures files == run(Invocation(command, args, cwd), old(files)).1
      ensures r == RunOutcome(command, run(Invocation(command, args, cwd), old(files)).0)
      ensures trace == old(trace) + [Ran(Invocation(command, args, cwd))]
    {
      var invocation := Invocation(command, args, cwd);
      var outcome := run(invocation, files);
      var process := outcome.0;
      files := outcome.1;
      trace := trace + [Ran(invocation)];
      var output := "";
      var i := 0;
      while i < |process.chunks|
        invariant 0 <= i <= |process.chunks|
        invariant output == Concat(process.chunks[..i])
      {
        assert process.chunks[..i + 1][..i] == process.chunks[..i];
        output := output + process.chunks[i];
        i := i + 1;
      }
      assert process.chunks[..i] == process.chunks;
      match process.ending {
        case StartFailed(reason) =>
          r := Err("Failed to start " + command + ": " + reason);
        case Exited(code) =>
          if code == Some(0) {
            r := Ok(output);
          } else {
            r := Err(command + " failed with exit code " + ExitCodeText(code) + "\n" + output);
          }
      }
    }

    /** `copyDirectory`: create the destination (with its parents), then copy
        every entry of the source, recursing into directories. It succeeds
        exactly when `CopyAllowed` holds, and then the destination is the
        source merged over what was there. When it fails, nothing outside the
        destination has changed. */
    method CopyDirectory(src: Path, dst: Path) returns (r: Result<()>)
      requires IsDir(files, src) && Apart(src, dst)
      modifies this
      ensures trace == old(trace)
      ensures r.Ok? <==> CopyAllowed(old(files), src, dst)
      ensures r.Ok? ==> files == Copied(old(files), src, dst)
      ensures r.Err? ==> r.message == CopyFailed
      ensures r.Err? ==> forall q :: Apart(q, dst) ==> Get(files, q) == Get(old(files), q)
      decreases Get(files, src).value
    {
      var s := Get(files, src).value;
      var d := Get(files, dst);
      if Blocked(files, dst) || (d.Some? && d.value.File?) {
        return Err(CopyFailed);
      }
      var cs := s.children;
      ghost var t0 := files;
      PartialNone(d, cs);
      if d.None? {
        files := Put(files, dst, Dir(map[]));
      } else {
        PutGet(files, dst);
      }
      var todo := cs.Keys;
      ghost var done: set<string> := {};
      while todo != {}
        invariant todo !! done && todo + done == cs.Keys
        invariant files == Put(t0, dst, Dir(Partial(d, cs, done)))
        invariant forall k :: k in done ==> !Conflict(ChildOf(d, k), cs[k])
        invariant trace == old(trace)
        decreases todo
      {
        var item :| item in todo;
        var child := CopyEntry(t0, src, dst, s, d, done, item);
        if child.Err? {
          return child;
        }
        todo := todo - {item};
        done := done + {item};
      }
      PartialAll(d, cs);
      r := Ok(());
    }

    /** One pass of the copy loop: the entry `item` of the source directory `s`. */
    method CopyEntry(ghost t0: Node, src: Path, dst: Path, s: Node, d: Option<Node>, ghost done: set<string>, item: string)
      returns (r: Result<()>)
      requires Get(t0, src) == Some(s) && s.Dir? && Apart(src, dst)
      requires d == Get(t0, dst) && (d.None? || d.value.Dir?) && !Blocked(t0, dst)
      requires done <= s.children.Keys && item in s.children && item !in done
      requires files == Put(t0, dst, Dir(Partial(d, s.children, done)))
      modifies this
      ensures trace == old(trace)
      ensures r.Ok? ==> !Conflict(ChildOf(d, item), s.children[item])
      ensures r.Ok? ==> files == Put(t0, dst, Dir(Partial(d, s.children, done + {item})))
      ensures r.Err? ==> r.message == CopyFailed && Conflict(d, s)
      ensures r.Err? ==> forall q :: Apart(q, dst) ==> Get(files, q) == Get(t0, q)
      decreases s, 0
    {
      var cs := s.children;
      var m := Partial(d, cs, done);
      ApartExtend(src, dst, item);
      GetPutApart(t0, dst, src + [item], Dir(m));
      GetAppend(t0, src, [item]);
      assert Get(s, [item]) == Some(cs[item]);
      assert Get(files, src + [item]) == Some(cs[item]);
      GetChildOfPut(t0, dst, m, item);
      PartialStep(d, cs, done, item);
      assert Get(files, dst + [item]) == ChildOf(d, item);
      if cs[item].Dir? {
        PutUnblocks(t0, dst, Dir(m), item);
        assert cs[item] in cs.Values;
        var c := CopyDirectory(src + [item], dst + [item]);
        if c.Err? {
          assert Conflict(ChildOf(d, item), cs[item]);
          forall q | Apart(q, dst) ensures Get(files, q) == Get(t0, q) {
            ApartExtend(q, dst, item);
            GetPutApart(t0, dst, q, Dir(m));
          }
          return c;
        }
        PutChildOfPut(t0, dst, m, item, Merge(ChildOf(d, item), cs[item]));
      } else {
        var target := Get(files, dst + [item]);
        if target.Some? && target.value.Dir? {
          assert Conflict(ChildOf(d, item), cs[item]);
          forall q | Apart(q, dst) ensures Get(files, q) == Get(t0, q) {
            GetPutApart(t0, dst, q, Dir(m));
          }
          return Err(CopyFailed);
        }
        files := Put(files, dst + [item], cs[item]);
        PutChildOfPut(t0, dst, m, item, cs[item]);
        assert Merge(ChildOf(d, item), cs[item]) == cs[item];
      }
      r := Ok(());
    }

    // -------------------------------------------------------------------------
    // The two kinds of build

    /** `npm install` in `src`: its run and the tree it leaves. */
    function Installed(t0: Node, src: Path): (ProcessRun, Node) {
      run(Install(src), t0)
    }

    /** `npm run build` in `src` after the install: its run and the tree it leaves. */
    function Built(t0: Node, src: Path): (ProcessRun, Node) {
      run(NpmBuild(src), Installed(t0, src).1)
    }

    /** Both commands exit with code 0 and leave `build/` or `dist/`, so the
        build output is copied. */
    predicate Compiled(t0: Node, src: Path) {
      && Installed(t0, src).0.ending == Exited(Some(0))
      && Built(t0, src).0.ending == Exited(Some(0))
      && BuildOutput(Built(t0, src).1, src).Some?
    }

    /** What `buildReactProject` settles with, starting from the tree `t0`:
        `npm install`, then `npm run build`, then the copy of the build output.
        It succeeds exactly when the output is there and may be copied; once
        the copy is attempted, the copy is the only thing that can fail. */
    function ReactOutcome(t0: Node, src: Path, dst: Path): (r: Result<string>)
      ensures r.Ok? <==> Compiled(t0, src) && CopyAllowed(Built(t0, src).1, BuildOutput(Built(t0, src).1, src).value, dst)
      ensures Compiled(t0, src) && r.Err? ==> r.message == CopyFailed
      ensures r.Ok? ==> StartsWith(r.value, ReactHeader)
    {
      var installed := Installed(t0, src);
      var install := RunOutcome("npm", installed.0);
      if install.Err? then Err(install.message)
      else
        var built := Built(t0, src);
        var build := RunOutcome("npm", built.0);
        if build.Err? then Err(build.message)
        else
          match BuildOutput(built.1, src)
          case None => Err(NoBuildOutput)
          case Some(out) =>
            if CopyAllowed(built.1, out, dst) then
              var logs := ReactHeader + install.value + build.value + CopiedLine("build output", out, dst);
              assert logs[..|ReactHeader|] == ReactHeader;
              Ok(logs)
            else Err(CopyFailed)
    }

    /** The tree `buildReactProject` leaves when the copy, if attempted,
        succeeds: after a failed command or a missing output directory, the tree
        that command left, with nothing copied. */
    function ReactTree(t0: Node, src: Path, dst: Path): Node {
      if !Compiled(t0, src) then
        if Installed(t0, src).0.ending != Exited(Some(0)) then Installed(t0, src).1 else Built(t0, src).1
      else
        var built := Built(t0, src).1;
        var out := BuildOutput(built, src).value;
        if CopyAllowed(built, out, dst) then Copied(built, out, dst) else built
    }

    /** A React build succeeds only when both commands exit with code 0, an
        output directory exists and the copy is allowed; its logs are the header,
        the two commands' output in order and the copy line. */
    lemma ReactSuccess(t0: Node, src: Path, dst: Path)
      ensures var installed := run(Install(src), t0);
              var built := run(NpmBuild(src), installed.1);
              var r := ReactOutcome(t0, src, dst);
              r.Ok? ==>
                && installed.0.ending == Exited(Some(0)) && built.0.ending == Exited(Some(0))
                && BuildOutput(built.1, src).Some?
                && CopyAllowed(built.1, BuildOutput(built.1, src).value, dst)
                && r.value == ReactHeader + Concat(installed.0.chunks) + Concat(built.0.chunks)
                              + CopiedLine("build output", BuildOutput(built.1, src).value, dst)
                && StartsWith(r.value, ReactHeader)
    {
    }

    /** A failed install stops the build before `npm run build`; a build that
        leaves neither `build/` nor `dist/` fails without copying. */
    lemma ReactFailures(t0: Node, src: Path, dst: Path)
      ensures var installed := run(Install(src), t0);
              installed.0.ending != Exited(Some(0)) ==>
                ReactOutcome(t0, src, dst) == Err(RunOutcome("npm", installed.0).message)
      ensures var installed := run(Install(src), t0);
              var built := run(NpmBuild(src), installed.1);
              installed.0.ending == Exited(Some(0)) && built.0.ending == Exited(Some(0))
              && !IsDir(built.1, src + ["build"]) && !IsDir(built.1, src + ["dist"]) ==>
                ReactOutcome(t0, src, dst) == Err(NoBuildOutput)
    {
    }

    /** `buildReactProject`. */
    method BuildReactProject(src: Path, dst: Path) returns (r: Result<string>)
      requires Apart(src, dst)
      modifies this
      ensures r == ReactOutcome(old(files), src, dst)
      ensures trace == old(trace) + [Ran(Install(src))]
                       + (if RunOutcome("npm", run(Install(src), old(files)).0).Ok? then [Ran(NpmBuild(src))] else [])
      ensures r.Ok? ==> IsDir(files, dst)
      ensures r.Ok? || !Compiled(old(files), src) ==> files == ReactTree(old(files), src, dst)
      ensures r.Err? ==> forall q :: Apart(q, dst) ==> Get(files, q) == Get(ReactTree(old(files), src, dst), q)
    {
      var logs := ReactHeader;
      var install := RunCommand("npm", ["install"], Some(src));
      if install.Err? {
        return Err(install.message);
      }
      logs := logs + install.value;
      var build := RunCommand("npm", ["run", "build"], Some(src));
      if build.Err? {
        return Err(build.message);
      }
      logs := logs + build.value;
      var out: Path;
      if IsDir(files, src + ["build"]) {
        out := src + ["build"];
        ApartExtend(src, dst, "build");
      } else if IsDir(files, src + ["dist"]) {
        out := src + ["dist"];
        ApartExtend(src, dst, "dist");
      } else {
        return Err(NoBuildOutput);
      }
      ghost var before := files;
      var copied := CopyDirectory(out, dst);
      if copied.Err? {
        return Err(copied.message);
      }
      GetPut(before, dst, Merge(Get(before, dst), Get(before, out).value));
      logs := logs + CopiedLine("build output", out, dst);
      r := Ok(logs);
    }

    /** What `copyStaticFiles` settles with. */
    function StaticOutcome(t0: Node, src: Path, dst: Path): (r: Result<string>)
      requires IsDir(t0, src)
      ensures r.Ok? <==> CopyAllowed(t0, src, dst)
      ensures r.Ok? ==> StartsWith(r.value, StaticHeader) && EndsWith(r.value, CopiedLine("static files", src, dst))
      ensures r.Ok? ==> r.value == StaticHeader + CopiedLine("static files", src, dst)
      ensures r.Err? ==> r.message == CopyFailed
    {
      if CopyAllowed(t0, src, dst) then
        var line := CopiedLine("static files", src, dst);
        assert (StaticHeader + line)[|StaticHeader|..] == line;
        Ok(StaticHeader + line)
      else Err(CopyFailed)
    }

    /** `copyStaticFiles`: the whole clone is the site. */
    method CopyStaticFiles(src: Path, dst: Path) returns (r: Result<string>)
      requires IsDir(files, src) && Apart(src, dst)
      modifies this
      ensures r == StaticOutcome(old(files), src, dst)
      ensures r.Ok? ==> files == Copied(old(files), src, dst)
      ensures r.Ok? ==> IsDir(files, dst)
      ensures r.Err? ==> forall q :: Apart(q, dst) ==> Get(files, q) == Get(old(files), q)
      ensures trace == old(trace)
    {
      var logs := StaticHeader;
      var copied := CopyDirectory(src, dst);
      if copied.Err? {
        return Err(copied.message);
      }
      GetPut(old(files), dst, Merge(Get(old(files), dst), Get(old(files), src).value));
      r := Ok(logs + CopiedLine("static files", src, dst));
    }

    // -------------------------------------------------------------------------
    // The workflow

    /** The clone's run and the tree it leaves. */
    function Cloned(t0: Node, id: string, url: string): (ProcessRun, Node) {
      run(Clone(url, Show(TempDir(id))), t0)
    }

    /** What the build settles with once the prototype is marked as building:
        clone, then build or copy what the clone left. The clone's output is not
        part of the logs. */
    function StepsOutcome(t0: Node, id: string, url: string): (r: Result<string>)
      ensures r.Ok? <==> Cloned(t0, id, url).0.ending == Exited(Some(0)) && BuiltOutcome(Cloned(t0, id, url).1, id).Ok?
      ensures r.Ok? ==> StartsWith(r.value, ReactHeader) || StartsWith(r.value, StaticHeader)
    {
      var cloned := Cloned(t0, id, url);
      var clone := RunOutcome("git", cloned.0);
      if clone.Err? then Err(clone.message) else BuiltOutcome(cloned.1, id)
    }

    /** The project type allows a copy into the output directory, and for a
        React project both commands succeeded and left their output. */
    predicate CopyAttempted(t1: Node, id: string) {
      match DetectProjectType(parse, t1, TempDir(id))
      case React => Compiled(t1, TempDir(id))
      case Static => true
      case Unknown => false
    }

    /** Detect the project type of the clone, then build or copy. An unknown
        type fails with `Unsupported`; once the copy is attempted, only the copy
        can fail. The logs start with the header of the kind of build. */
    function BuiltOutcome(t1: Node, id: string): (r: Result<string>)
      ensures DetectProjectType(parse, t1, TempDir(id)) == Unknown ==> r == Err(Unsupported)
      ensures r.Ok? ==> CopyAttempted(t1, id)
      ensures CopyAttempted(t1, id) && r.Err? ==> r.message == CopyFailed
      ensures r.Ok? ==> StartsWith(r.value, ReactHeader) || StartsWith(r.value, StaticHeader)
      ensures r.Ok? ==> IsDir(BuiltTree(t1, id), OutputDir(id))
    {
      match DetectProjectType(parse, t1, TempDir(id))
      case React =>
        if Compiled(t1, TempDir(id)) then
          var built := Built(t1, TempDir(id)).1;
          CopiedIsDir(built, BuildOutput(built, TempDir(id)).value, OutputDir(id));
          ReactOutcome(t1, TempDir(id), OutputDir(id))
        else ReactOutcome(t1, TempDir(id), OutputDir(id))
      case Static =>
        CopiedIsDir(t1, TempDir(id), OutputDir(id));
        StaticOutcome(t1, TempDir(id), OutputDir(id))
      case Unknown => Err(Unsupported)
    }

    /** The tree `buildOrCopy` leaves when the copy, if attempted, succeeds. */
    function BuiltTree(t1: Node, id: string): Node {
      match DetectProjectType(parse, t1, TempDir(id))
      case React => ReactTree(t1, TempDir(id), OutputDir(id))
      case Static =>
        if CopyAllowed(t1, TempDir(id), OutputDir(id)) then Copied(t1, TempDir(id), OutputDir(id)) else t1
      case Unknown => t1
    }

    /** The tree the steps leave before the clone is removed: after a failed
        clone, whatever the clone left; otherwise the built tree. */
    function StepsTree(t0: Node, id: string, url: string): Node {
      var cloned := Cloned(t0, id, url);
      if cloned.0.ending != Exited(Some(0)) then cloned.1 else BuiltTree(cloned.1, id)
    }

    /** The logs of a successful build come from the React or static step alone:
        the clone's output is not part of them. An unknown project type fails
        with `Unsupported`. */
    lemma StepsLogs(t0: Node, id: string, url: string)
      ensures StepsOutcome(t0, id, url).Ok? ==>
        StartsWith(StepsOutcome(t0, id, url).value, ReactHeader)
        || StartsWith(StepsOutcome(t0, id, url).value, StaticHeader)
      ensures var cloned := Cloned(t0, id, url);
        RunOutcome("git", cloned.0).Ok? && DetectProjectType(parse, cloned.1, TempDir(id)) == Unknown ==>
          StepsOutcome(t0, id, url) == Err(Unsupported)
    {
    }

    /** Child processes, then the removal of the clone exactly when `removed`. */
    ghost predicate RunsThen(steps: seq<Step>, removed: bool) {
      if removed then |steps| >= 1 && AllRan(steps[..|steps| - 1]) && steps[|steps| - 1] == RemoveTemp
      else AllRan(steps)
    }

    /** The steps between marking the prototype as building and closing its row:
        the clone first, then only child processes, and last the removal of the
        clone exactly when the steps succeeded. */
    ghost predicate StepsTrace(steps: seq<Step>, id: string, url: string, success: bool) {
      |steps| >= 1 && steps[0] == Ran(Clone(url, Show(TempDir(id)))) && RunsThen(steps[1..], success)
    }

    /** Clone, then build or copy. A failed clone stops the steps. */
    method BuildSteps(id: string, url: string) returns (r: Result<string>)
      requires PlainSegment(id) && id != "temp"
      modifies this
      ensures r == StepsOutcome(old(files), id, url)
      ensures |trace| > |old(trace)| && trace[..|old(trace)|] == old(trace)
      ensures StepsTrace(trace[|old(trace)|..], id, url, r.Ok?)
      ensures var cloned := Cloned(old(files), id, url);
        RunOutcome("git", cloned.0).Ok? && DetectProjectType(parse, cloned.1, TempDir(id)) != React ==>
          trace == old(trace) + [Ran(Clone(url, Show(TempDir(id))))] + (if r.Ok? then [RemoveTemp] else [])
      ensures r.Ok? ==> Get(files, TempDir(id)).None? && IsDir(files, OutputDir(id))
      ensures r.Ok? ==> files == Remove(StepsTree(old(files), id, url), TempDir(id))
      ensures r.Err? && (Cloned(old(files), id, url).0.ending != Exited(Some(0))
                         || !CopyAttempted(Cloned(old(files), id, url).1, id)) ==>
        files == StepsTree(old(files), id, url)
      ensures r.Err? ==> forall q :: Apart(q, OutputDir(id)) ==> Get(files, q) == Get(StepsTree(old(files), id, url), q)
    {
      var clone := RunCommand("git", ["clone", url, Show(TempDir(id))], None);
      ghost var mark := trace;
      if clone.Err? {
        StepsTraceOf(old(trace), mark, trace, id, url, false);
        return Err(clone.message);
      }
      r := BuildClone(id);
      StepsTraceOf(old(trace), mark, trace, id, url, r.Ok?);
    }

    /** The clone, then what followed it, make up the steps. */
    lemma StepsTraceOf(before: seq<Step>, mark: seq<Step>, after: seq<Step>, id: string, url: string, success: bool)
      requires mark == before + [Ran(Clone(url, Show(TempDir(id))))]
      requires |after| >= |mark| && after[..|mark|] == mark && RunsThen(after[|mark|..], success)
      ensures |after| > |before| && after[..|before|] == before
      ensures StepsTrace(after[|before|..], id, url, success)
    {
    }

    /** Build or copy the clone, then remove the clone once the output is in
        place. A failure leaves the clone where it is. */
    method BuildClone(id: string) returns (r: Result<string>)
      requires PlainSegment(id) && id != "temp"
      modifies this
      ensures r == BuiltOutcome(old(files), id)
      ensures |trace| >= |old(trace)| && trace[..|old(trace)|] == old(trace)
      ensures RunsThen(trace[|old(trace)|..], r.Ok?)
      ensures DetectProjectType(parse, old(files), TempDir(id)) != React ==>
        trace == old(trace) + (if r.Ok? then [RemoveTemp] else [])
      ensures r.Ok? ==> Get(files, TempDir(id)).None? && IsDir(files, OutputDir(id))
      ensures r.Ok? ==> files == Remove(BuiltTree(old(files), id), TempDir(id))
      ensures r.Err? && !CopyAttempted(old(files), id) ==> files == BuiltTree(old(files), id)
      ensures r.Err? ==> forall q :: Apart(q, OutputDir(id)) ==> Get(files, q) == Get(BuiltTree(old(files), id), q)
    {
      r := BuildOrCopy(id);
      ghost var runs := trace[|old(trace)|..];
      if r.Err? {
        return;
      }
      var temp, out := TempDir(id), OutputDir(id);
      TempApartFromOutput(id);
      GetRemove(files, temp);
      GetRemoveApart(files, temp, out);
      files := Remove(files, temp);
      trace := trace + [RemoveTemp];
      assert trace[|old(trace)|..] == runs + [RemoveTemp];
      assert (runs + [RemoveTemp])[..|runs|] == runs;
    }

    /** Detect the project type of the clone, then build it or copy it into the
        output directory. */
    method BuildOrCopy(id: string) returns (r: Result<string>)
      requires id != "temp"
      modifies this
      ensures r == BuiltOutcome(old(files), id)
      ensures |trace| >= |old(trace)| && trace == old(trace) + trace[|old(trace)|..]
      ensures AllRan(trace[|old(trace)|..])
      ensures DetectProjectType(parse, old(files), TempDir(id)) != React ==> trace == old(trace)
      ensures r.Ok? ==> IsDir(files, OutputDir(id))
      ensures r.Ok? || !CopyAttempted(old(files), id) ==> files == BuiltTree(old(files), id)
      ensures r.Err? ==> forall q :: Apart(q, OutputDir(id)) ==> Get(files, q) == Get(BuiltTree(old(files), id), q)
    {
      var temp, out := TempDir(id), OutputDir(id);
      TempApartFromOutput(id);
      var kind := DetectProjectType(parse, files, temp);
      match kind {
        case React =>
          r := BuildReactProject(temp, out);
        case Static =>
          r := CopyStaticFiles(temp, out);
        case Unknown =>
          r := Err(Unsupported);
      }
    }

    /** The first two store calls: open a `started` build-history row with the
        start log, then mark the prototype as building. The row's id is the
        result; without the prototype there is no row and no status change. */
    method OpenBuild(prototypeId: string, startTime: int) returns (r: Result<string>)
      requires store.Valid()
      modifies this`trace, store
      ensures store.Valid()
      ensures r.Err? <==> prototypeId !in old(store.prototypes)
      ensures r.Err? ==>
        && r.message == PrototypeStore.ForeignKeyViolation
        && store.prototypes == old(store.prototypes) && store.builds == old(store.builds)
        && trace == old(trace) + [AddHistory]
      ensures r.Ok? ==>
        && r.value == PrototypeStore.FreshId(old(store.issued)) && r.value !in old(store.builds)
        && store.builds == old(store.builds)[r.value := PrototypeStore.BuildRecord(
             r.value, prototypeId, PrototypeStore.Started, startTime, None, None, Some(StartLog), None)]
        && store.prototypes == old(store.prototypes)[prototypeId := PrototypeStore.WithBuildStatus(
             old(store.prototypes)[prototypeId], PrototypeStore.Building, None, startTime)]
        && trace == old(trace) + [AddHistory, MarkBuilding]
    {
      var created := store.AddBuildHistory(prototypeId, PrototypeStore.Started, Some(StartLog), startTime);
      if created.Err? {
        trace := trace + [AddHistory];
        return Err(created.message);
      }
      var marked := store.UpdateBuildStatus(prototypeId, PrototypeStore.Building, None, startTime);
      trace := trace + [AddHistory, MarkBuilding];
      r := Ok(created.value.id);
    }

    /** The last store call: close the row with the outcome of the steps (their
        logs on success, their error's message on failure), which the store
        mirrors on the prototype; the error itself is passed on. */
    method CloseBuild(historyId: string, outcome: Result<string>, endTime: int) returns (r: Result<()>)
      requires store.Valid() && historyId in store.builds
      modifies this`trace, store
      ensures store.Valid()
      ensures r.Ok? <==> outcome.Ok?
      ensures r.Err? ==> r.message == outcome.message
      ensures trace == old(trace) + [Complete(outcome.Ok?)]
      ensures var row := old(store.builds)[historyId];
        var error := if outcome.Ok? then None else Some(outcome.message);
        && store.builds == old(store.builds)[historyId := PrototypeStore.CompletedRecord(
             row, outcome.Ok?, if outcome.Ok? then Some(outcome.value) else None, error, endTime)]
        && store.prototypes == old(store.prototypes)[row.prototypeId := PrototypeStore.WithBuildStatus(
             old(store.prototypes)[row.prototypeId], PrototypeStore.OutcomeStatus(outcome.Ok?), error, endTime)]
    {
      var completed: Result<PrototypeStore.BuildRecord>;
      if outcome.Ok? {
        completed := store.CompleteBuild(historyId, true, Some(outcome.value), None, endTime);
        r := Ok(());
      } else {
        completed := store.CompleteBuild(historyId, false, None, Some(outcome.message), endTime);
        r := Err(outcome.message);
      }
      trace := trace + [Complete(outcome.Ok?)];
    }

    /** `buildPrototype`: open a build-history row, mark the prototype as
        building, run the steps, and close the row with the outcome. When the
        row cannot be created nothing else happens; every later failure closes
        the row as failed with the error's message and is passed on. */
    method BuildPrototype(prototypeId: string, gitHubRepoUrl: string, startTime: int, endTime: int)
      returns (r: Result<()>)
      requires store.Valid() && PlainSegment(prototypeId) && prototypeId != "temp"
      modifies this, store
      ensures store.Valid()
      ensures prototypeId !in old(store.prototypes) ==>
        && r == Err(PrototypeStore.ForeignKeyViolation)
        && store.prototypes == old(store.prototypes) && store.builds == old(store.builds)
        && trace == old(trace) + [AddHistory]
        && files == old(files)
      ensures prototypeId in old(store.prototypes) ==>
        var outcome := StepsOutcome(old(files), prototypeId, gitHubRepoUrl);
        && (r.Ok? <==> outcome.Ok?)
        && (r.Err? ==> r.message == outcome.message)
        && |trace| >= |old(trace)| + 4
        && trace == old(trace) + [AddHistory, MarkBuilding] + trace[|old(trace)| + 2..|trace| - 1] + [Complete(r.Ok?)]
        && StepsTrace(trace[|old(trace)| + 2..|trace| - 1], prototypeId, gitHubRepoUrl, r.Ok?)
      ensures prototypeId in old(store.prototypes) ==>
        var outcome := StepsOutcome(old(files), prototypeId, gitHubRepoUrl);
        var historyId := PrototypeStore.FreshId(old(store.issued));
        var started := PrototypeStore.BuildRecord(historyId, prototypeId, PrototypeStore.Started, startTime,
                                                  None, None, Some(StartLog), None);
        var error := if outcome.Ok? then None else Some(outcome.message);
        && historyId !in old(store.builds)
        && store.builds == old(store.builds)[historyId := PrototypeStore.CompletedRecord(
             started, outcome.Ok?, if outcome.Ok? then Some(outcome.value) else None, error, endTime)]
        && store.prototypes == old(store.prototypes)[prototypeId := PrototypeStore.WithBuildStatus(
             PrototypeStore.WithBuildStatus(old(store.prototypes)[prototypeId], PrototypeStore.Building, None, startTime),
             PrototypeStore.OutcomeStatus(outcome.Ok?), error, endTime)]
      ensures r.Ok? ==> Get(files, TempDir(prototypeId)).None? && IsDir(files, OutputDir(prototypeId))
      ensures r.Ok? ==> files == Remove(StepsTree(old(files), prototypeId, gitHubRepoUrl), TempDir(prototypeId))
      ensures prototypeId in old(store.prototypes) && r.Err? ==>
        forall q :: Apart(q, OutputDir(prototypeId)) ==>
          Get(files, q) == Get(StepsTree(old(files), prototypeId, gitHubRepoUrl), q)
    {
      var row := OpenBuild(prototypeId, startTime);
      if row.Err? {
        return Err(row.message);
      }
      ghost var started := PrototypeStore.BuildRecord(row.value, prototypeId, PrototypeStore.Started, startTime,
                                                      None, None, Some(StartLog), None);
      ghost var building := PrototypeStore.WithBuildStatus(old(store.prototypes)[prototypeId], PrototypeStore.Building, None, startTime);
      assert store.builds[row.value] == started;
      assert store.prototypes[prototypeId] == building;
      ghost var marked := trace;
      r := RunBuild(row.value, prototypeId, gitHubRepoUrl, endTime);
      ghost var closedRow, closedPrototype := store.builds[row.value], store.prototypes[prototypeId];
      Overwrite(old(store.builds), row.value, started, closedRow);
      Overwrite(old(store.prototypes), prototypeId, building, closedPrototype);
      ghost var steps := trace[|marked|..|trace| - 1];
      assert |marked| == |old(trace)| + 2;
      assert trace == old(trace) + [AddHistory, MarkBuilding] + steps + [Complete(r.Ok?)];
      assert trace[|old(trace)| + 2..|trace| - 1] == steps;
    }

    /** The steps and the last store call, once the row `historyId` of the
        prototype is open: the row and the prototype take the outcome of the
        steps, and the tree is what the steps leave. */
    method RunBuild(historyId: string, prototypeId: string, url: string, endTime: int) returns (r: Result<()>)
      requires store.Valid() && historyId in store.builds && store.builds[historyId].prototypeId == prototypeId
      requires PlainSegment(prototypeId) && prototypeId != "temp"
      modifies this, store
      ensures store.Valid()
      ensures var outcome := StepsOutcome(old(files), prototypeId, url);
        var error := if outcome.Ok? then None else Some(outcome.message);
        && (r.Ok? <==> outcome.Ok?)
        && (r.Err? ==> r.message == outcome.message)
        && |trace| >= |old(trace)| + 2
        && trace == old(trace) + trace[|old(trace)|..|trace| - 1] + [Complete(r.Ok?)]
        && StepsTrace(trace[|old(trace)|..|trace| - 1], prototypeId, url, r.Ok?)
        && store.builds == old(store.builds)[historyId := PrototypeStore.CompletedRecord(
             old(store.builds)[historyId], outcome.Ok?, if outcome.Ok? then Some(outcome.value) else None, error, endTime)]
        && store.prototypes == old(store.prototypes)[prototypeId := PrototypeStore.WithBuildStatus(
             old(store.prototypes)[prototypeId], PrototypeStore.OutcomeStatus(outcome.Ok?), error, endTime)]
      ensures r.Ok? ==> Get(files, TempDir(prototypeId)).None? && IsDir(files, OutputDir(prototypeId))
      ensures r.Ok? ==> files == Remove(StepsTree(old(files), prototypeId, url), TempDir(prototypeId))
      ensures r.Err? ==>
        forall q :: Apart(q, OutputDir(prototypeId)) ==> Get(files, q) == Get(StepsTree(old(files), prototypeId, url), q)
    {
      var outcome := BuildSteps(prototypeId, url);
      ghost var steps := trace[|old(trace)|..];
      assert trace == old(trace) + steps;
      r := CloseBuild(historyId, outcome, endTime);
      assert trace[|old(trace)|..|trace| - 1] == steps;
    }

    // -------------------------------------------------------------------------
    // Serving

    /** The bytes of the file at `p`, if there is a file there. */
    function FileAt(p: Path): Option<Bytes>
      reads this
    {
      if IsFile(files, p) then Some(Get(files, p).value.data) else None
    }

    /** The place `servePrototype` reads: `<out>/<requestPath>` joined as
        `path.join` does, or `<out>/index.html` for an empty path, for `/` and
        for a path naming a directory. A path that ends in `/` but names no
        directory cannot be read. A directory is only ever read as that
        `index.html`, and a path ending in `/` only serves it. */
    function ServedPath(prototypeId: string, requestPath: string): (r: Option<Path>)
      reads this
      ensures r.Some? ==> Resolve([], Split(prototypeId, '/')).Some?
      ensures r.Some? ==>
        r.value == Resolve([], Split(prototypeId, '/')).value + [IndexHtml] || !IsDir(files, r.value)
      ensures (requestPath == "" || requestPath == "/") && Resolve([], Split(prototypeId, '/')).Some? ==>
        r == Some(Resolve([], Split(prototypeId, '/')).value + [IndexHtml])
      ensures r.Some? && requestPath != "" && requestPath[|requestPath| - 1] == '/' ==>
        r.value == Resolve([], Split(prototypeId, '/')).value + [IndexHtml]
    {
      var out := Resolve([], Split(prototypeId, '/'));
      if out.None? then None
      else
        var file := Resolve(out.value, Split(requestPath, '/'));
        if requestPath == "" || requestPath == "/" || (file.Some? && IsDir(files, file.value)) then
          Some(out.value + [IndexHtml])
        else if requestPath[|requestPath| - 1] == '/' then None
        else file
    }

    /** `servePrototype`: the contents of the file it resolves to, or `null`
        when reading fails. Whatever is served is some file of the tree. */
    function Serve(prototypeId: string, requestPath: string): (r: Option<Bytes>)
      reads this
      ensures r.Some? ==> exists p :: Get(files, p) == Some(File(r.value))
      ensures r.Some? ==> ServedPath(prototypeId, requestPath).Some?
                          && Get(files, ServedPath(prototypeId, requestPath).value) == Some(File(r.value))
      ensures r.Some? <==> ServedPath(prototypeId, requestPath).Some? && IsFile(files, ServedPath(prototypeId, requestPath).value)
    {
      var p := ServedPath(prototypeId, requestPath);
      if p.Some? && IsFile(files, p.value) then
        assert Get(files, p.value) == Some(File(FileAt(p.value).value));
        FileAt(p.value)
      else None
    }

    /** An empty path and `/` serve the prototype's `index.html`. */
    lemma ServeIndex(prototypeId: string, requestPath: string)
      requires PlainSegment(prototypeId) && (requestPath == "" || requestPath == "/")
      ensures Serve(prototypeId, requestPath) == FileAt(OutputDir(prototypeId) + [IndexHtml])
    {
      OutputResolves(prototypeId);
    }

    /** A path of plain entries that names a file serves that file. */
    lemma ServeFile(prototypeId: string, segs: seq<string>)
      requires PlainSegment(prototypeId) && |segs| >= 1
      requires forall i :: 0 <= i < |segs| ==> PlainSegment(segs[i])
      requires IsFile(files, OutputDir(prototypeId) + segs)
      ensures Serve(prototypeId, Join(segs, '/')) == FileAt(OutputDir(prototypeId) + segs)
    {
      ServedPathPlain(prototypeId, segs);
    }

    /** A path of plain entries that names a directory serves the prototype's
        top-level `index.html`, not the directory's own. */
    lemma ServeSubdirectory(prototypeId: string, segs: seq<string>)
      requires PlainSegment(prototypeId) && |segs| >= 1
      requires forall i :: 0 <= i < |segs| ==> PlainSegment(segs[i])
      requires IsDir(files, OutputDir(prototypeId) + segs)
      ensures Serve(prototypeId, Join(segs, '/')) == FileAt(OutputDir(prototypeId) + [IndexHtml])
    {
      ServedPathPlain(prototypeId, segs);
    }

    /** The round trip of a static site: when the clone succeeds and holds an
        `index.html` file but no React manifest, and the copy is allowed, the
        tree a successful build leaves serves that file's bytes for the
        prototype's own URL. */
    lemma StaticBuildServesIndex(t0: Node, id: string, url: string)
      requires PlainSegment(id) && id != "temp"
      requires Cloned(t0, id, url).0.ending == Exited(Some(0))
      requires DetectProjectType(parse, Cloned(t0, id, url).1, TempDir(id)) == Static
      requires IsFile(Cloned(t0, id, url).1, TempDir(id) + [IndexHtml])
      requires StepsOutcome(t0, id, url).Ok?
      requires files == Remove(StepsTree(t0, id, url), TempDir(id))
      ensures Serve(id, "") == Some(Get(Cloned(t0, id, url).1, TempDir(id) + [IndexHtml]).value.data)
    {
      var t1 := Cloned(t0, id, url).1;
      var temp, out := TempDir(id), OutputDir(id);
      TempApartFromOutput(id);
      assert CopyAllowed(t1, temp, out);
      var copied := Copied(t1, temp, out);
      assert StepsTree(t0, id, url) == copied;
      CopiedFiles(t1, temp, out, [IndexHtml]);
      ApartExtend(temp, out, IndexHtml);
      GetRemoveApart(copied, temp, out + [IndexHtml]);
      ServeIndex(id, "");
    }

    /** The same round trip for a React project: the `index.html` the build
        left in its output directory is what the prototype's own URL serves. */
    lemma ReactBuildServesIndex(t0: Node, id: string, url: string)
      requires PlainSegment(id) && id != "temp"
      requires Cloned(t0, id, url).0.ending == Exited(Some(0))
      requires DetectProjectType(parse, Cloned(t0, id, url).1, TempDir(id)) == React
      requires Compiled(Cloned(t0, id, url).1, TempDir(id))
      requires var built := Built(Cloned(t0, id, url).1, TempDir(id)).1;
        IsFile(built, BuildOutput(built, TempDir(id)).value + [IndexHtml])
      requires StepsOutcome(t0, id, url).Ok?
      requires files == Remove(StepsTree(t0, id, url), TempDir(id))
      ensures var built := Built(Cloned(t0, id, url).1, TempDir(id)).1;
        Serve(id, "") == Some(Get(built, BuildOutput(built, TempDir(id)).value + [IndexHtml]).value.data)
    {
      var t1 := Cloned(t0, id, url).1;
      var temp, out := TempDir(id), OutputDir(id);
      var built := Built(t1, temp).1;
      var result := BuildOutput(built, temp).value;
      TempApartFromOutput(id);
      assert CopyAllowed(built, result, out);
      var copied := Copied(built, result, out);
      assert StepsTree(t0, id, url) == copied;
      CopiedFiles(built, result, out, [IndexHtml]);
      ApartExtend(temp, out, IndexHtml);
      GetRemoveApart(copied, temp, out + [IndexHtml]);
      ServeIndex(id, "");
    }

    /** A file named with a trailing `/` is not served. */
    lemma ServeTrailingSlash(prototypeId: string, name: string)
      requires PlainSegment(prototypeId) && PlainSegment(name)
      requires IsFile(files, OutputDir(prototypeId) + [name])
      ensures Serve(prototypeId, name + "/") == None
    {
      OutputResolves(prototypeId);
      SplitPrefix(name, "", '/');
      assert name + "/" == name + ['/'] + "";
      assert Split("", '/') == [""];
      assert [name, ""][1..] == [""] && [prototypeId] + [name] == [prototypeId, name];
      assert Resolve([prototypeId], [name, ""]) == Resolve([prototypeId, name], [""]);
      assert [""][1..] == [];
      assert Resolve([prototypeId, name], [""]) == Some([prototypeId, name]);
      var rp := name + "/";
      assert Split(rp, '/') == [name, ""];
      assert |rp| >= 2 && rp[|rp| - 1] == '/';
      assert !IsDir(files, [prototypeId, name]);
    }

    /** Nothing keeps `..` inside the prototype: `../<other>/<name>` serves
        another prototype's file. */
    lemma ServeClimbsOut(prototypeId: string, other: string, name: string)
      requires PlainSegment(prototypeId) && PlainSegment(other) && PlainSegment(name)
      requires IsFile(files, [other, name])
      ensures Serve(prototypeId, "../" + other + "/" + name) == FileAt([other, name])
    {
      var rp := "../" + other + "/" + name;
      OutputResolves(prototypeId);
      ClimbingPath(prototypeId, other, name);
      assert rp[|rp| - 1] == name[|name| - 1] && name[|name| - 1] in name;
      assert !IsDir(files, [other, name]);
    }

    /** `../<other>/<name>` below a prototype's output directory is
        `<other>/<name>` below the build-artifacts directory. */
    lemma ClimbingPath(prototypeId: string, other: string, name: string)
      requires PlainSegment(prototypeId) && PlainSegment(other) && PlainSegment(name)
      ensures Resolve(OutputDir(prototypeId), Split("../" + other + "/" + name, '/')) == Some([other, name])
    {
      var rp := "../" + other + "/" + name;
      assert Join([name], '/') == name;
      assert Join([other, name], '/') == other + "/" + name;
      assert Join(["..", other, name], '/') == rp;
      JoinSplit(["..", other, name], '/');
      ResolveUp([], prototypeId, [other, name]);
      ResolvePlain([], [other, name]);
      assert [] + [other, name] == [other, name];
      assert [prototypeId, ".."] + [other, name] == [prototypeId, "..", other, name];
      assert Resolve([], [prototypeId, "..", other, name]) == Resolve([prototypeId], ["..", other, name]);
    }

    /** A plain prototype id resolves to its output directory. */
    lemma OutputResolves(prototypeId: string)
      requires PlainSegment(prototypeId)
      ensures Resolve([], Split(prototypeId, '/')) == Some(OutputDir(prototypeId))
    {
      SplitWhole(prototypeId, '/');
      ResolvePlain([], [prototypeId]);
      assert [] + [prototypeId] == OutputDir(prototypeId);
    }

    /** The place read for a path of plain entries. */
    lemma ServedPathPlain(prototypeId: string, segs: seq<string>)
      requires PlainSegment(prototypeId) && |segs| >= 1
      requires forall i :: 0 <= i < |segs| ==> PlainSegment(segs[i])
      ensures ServedPath(prototypeId, Join(segs, '/')) ==
        if IsDir(files, OutputDir(prototypeId) + segs) then Some(OutputDir(prototypeId) + [IndexHtml])
        else Some(OutputDir(prototypeId) + segs)
    {
      ServedPlain(prototypeId, segs);
      var rp := Join(segs, '/');
      assert rp != "/";
    }

    /** Where a path of plain entries resolves. */
    lemma ServedPlain(prototypeId: string, segs: seq<string>)
      requires PlainSegment(prototypeId) && |segs| >= 1
      requires forall i :: 0 <= i < |segs| ==> PlainSegment(segs[i])
      ensures Split(Join(segs, '/'), '/') == segs
      ensures Resolve([], Split(prototypeId, '/')) == Some(OutputDir(prototypeId))
      ensures Resolve(OutputDir(prototypeId), segs) == Some(OutputDir(prototypeId) + segs)
      ensures var rp := Join(segs, '/'); rp != "" && rp[|rp| - 1] != '/'
    {
      OutputResolves(prototypeId);
      ResolvePlain(OutputDir(prototypeId), segs);
      JoinSplit(segs, '/');
      PlainJoinEnd(segs);
    }

    /** A join of plain entries does not end in `/`. */
    lemma PlainJoinEnd(segs: seq<string>)
      requires |segs| >= 1 && PlainSegment(segs[|segs| - 1])
      ensures var rp := Join(segs, '/'); rp != "" && rp[|rp| - 1] != '/'
    {
      var rp := Join(segs, '/');
      var last := segs[|segs| - 1];
      JoinEndsWithLast(segs, '/');
      assert rp[|rp| - 1] == last[|last| - 1] && last[|last| - 1] in last;
    }
  }
}
