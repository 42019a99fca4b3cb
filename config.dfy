/** Node configuration (internal/config/config.go): the defaults, the
    listen-address and dump-path helpers, and the merge of command-line flags
    over the configuration file. */
module Config {
  import opened Common
  import Strings

  const GRPCPort: int := 50051
  const HTTPPort: int := 9091
  const ListenAddr: string := "0.0.0.0"
  /** One second as a Go `time.Duration`, in nanoseconds. */
  const Second: int := 1_000_000_000
  const ServerShutdownTimeout: int := 30 * Second
  const GracefulTimeout: int := 10 * Second
  const MemoryDumpPath: string := "/var/lib/protocache/"
  const MemoryDumpFileName: string := "protocache.gob.gz"

  datatype ServerConfig = ServerConfig(grpcPort: int, httpPort: int, listenAddr: string,
                                       shutdownTimeout: int, gracefulTimeout: int)

  datatype StoreConfig = StoreConfig(dumpEnabled: bool, memoryDumpPath: string, memoryDumpFileName: string)

  datatype Config = Config(id: string, clusterMembers: seq<string>, initCluster: bool,
                           server: ServerConfig, store: StoreConfig)

  /** `DefaultConfig()`, with the generated UUID passed in as `id`. */
  function DefaultConfig(id: string): (c: Config)
    ensures c.id == id && c.clusterMembers == [] && !c.initCluster && !c.store.dumpEnabled
    ensures 0 < c.server.grpcPort < 65536 && 0 < c.server.httpPort < 65536
    ensures c.server.grpcPort != c.server.httpPort
    ensures 0 < c.server.gracefulTimeout < c.server.shutdownTimeout
    ensures |c.store.memoryDumpPath| >= 1 && c.store.memoryDumpPath[0] == '/'
  {
    Config(id, [], false,
           ServerConfig(GRPCPort, HTTPPort, ListenAddr, ServerShutdownTimeout, GracefulTimeout),
           StoreConfig(false, MemoryDumpPath, MemoryDumpFileName))
  }

  /** The defaults the configuration tests check. */
  lemma DefaultValues(id: string)
    ensures var c := DefaultConfig(id);
      && c.server.grpcPort == 50051 && c.server.httpPort == 9091 && c.server.listenAddr == "0.0.0.0"
      && c.server.shutdownTimeout == 30_000_000_000 && c.server.gracefulTimeout == 10_000_000_000
      && !c.store.dumpEnabled
      && c.store.memoryDumpPath == "/var/lib/protocache/" && c.store.memoryDumpFileName == "protocache.gob.gz"
      && c.clusterMembers == [] && !c.initCluster && c.id == id
  {
  }

  /** One pass of `path.Clean` over the slash-separated elements: empty and
      `.` elements go, `..` removes the element before it, and a `..` with
      nothing to remove is kept in a relative path and dropped in a rooted one. */
  function CleanElements(parts: seq<string>, kept: seq<string>, rooted: bool): (r: seq<string>)
    ensures (forall i :: 0 <= i < |kept| ==> CleanElement(kept[i])) &&
            (forall i :: 0 <= i < |parts| ==> '/' !in parts[i]) ==>
            forall i :: 0 <= i < |r| ==> CleanElement(r[i])
    ensures rooted && (forall i :: 0 <= i < |kept| ==> kept[i] != "..") ==>
            forall i :: 0 <= i < |r| ==> r[i] != ".."
    decreases |parts|
  {
    if parts == [] then kept
    else
      var p := parts[0];
      if p == "" || p == "." then CleanElements(parts[1..], kept, rooted)
      else if p == ".." then
        if |kept| > 0 && kept[|kept| - 1] != ".." then CleanElements(parts[1..], kept[..|kept| - 1], rooted)
        else if rooted then CleanElements(parts[1..], kept, rooted)
        else CleanElements(parts[1..], kept + [".."], rooted)
      else CleanElements(parts[1..], kept + [p], rooted)
  }

  /** An element a cleaned path can hold: non-empty, not `.`, no slash. */
  predicate CleanElement(e: string)
  {
    e != "" && e != "." && '/' !in e
  }

  /** `filepath.Clean` on a slash-separated path: never empty, and rooted
      exactly when the input is. */
  function Clean(path: string): (r: string)
    ensures |r| >= 1
    ensures path == "" ==> r == "."
    ensures path != "" ==> (r[0] == '/' <==> path[0] == '/')
  {
    if path == "" then "."
    else
      var rooted := path[0] == '/';
      var body := Strings.Join(CleanElements(Strings.Split(path, '/'), [], rooted), '/');
      if rooted then "/" + body
      else if body == "" then "."
      else body
  }

  /** `filepath.Join(dir, file)`: the non-empty elements joined by a slash and cleaned. */
  function JoinPath(dir: string, file: string): (r: string)
    ensures r == "" <==> dir == "" && file == ""
    ensures dir != "" ==> (r[0] == '/' <==> dir[0] == '/')
    ensures dir == "" && file != "" ==> (r[0] == '/' <==> file[0] == '/')
  {
    if dir != "" then Clean(dir + "/" + file)
    else if file != "" then Clean(file)
    else ""
  }

  /** A path element that `Clean` keeps as it is. */
  predicate PlainElement(e: string)
  {
    e != "" && e != "." && e != ".." && '/' !in e
  }

  /** `MemoryDumpFileFullPath`: the dump directory joined with the file name,
      a rooted path whenever the directory is rooted. */
  function MemoryDumpFileFullPath(c: Config): (p: string)
    ensures p == "" <==> c.store.memoryDumpPath == "" && c.store.memoryDumpFileName == ""
    ensures c.store.memoryDumpPath != "" ==> (p[0] == '/' <==> c.store.memoryDumpPath[0] == '/')
  {
    JoinPath(c.store.memoryDumpPath, c.store.memoryDumpFileName)
  }

  /** Joining with the last piece appends a separator and that piece. */
  lemma {:induction false} JoinSnoc(parts: seq<string>, last: string, sep: char)
    requires |parts| >= 1
    ensures Strings.Join(parts + [last], sep) == Strings.Join(parts, sep) + [sep] + last
    decreases |parts|
  {
    if |parts| > 1 {
      JoinSnoc(parts[1..], last, sep);
      assert (parts + [last])[1..] == parts[1..] + [last];
    } else {
      assert (parts + [last])[1..] == [last];
    }
  }

  /** The slash-separated pieces of `/d1/.../dn//file`. */
  lemma PlainPathPieces(dirs: seq<string>, file: string)
    requires |dirs| >= 1
    ensures Strings.Join([""] + dirs + ["", file], '/') == "/" + Strings.Join(dirs, '/') + "/" + "/" + file
  {
    var j := Strings.Join(dirs, '/');
    var a := [""] + dirs;
    var b := a + [""];
    var x := Strings.Join(a, '/');
    var y := Strings.Join(b, '/');
    var z := Strings.Join(b + [file], '/');
    JoinLeadingEmpty(dirs, '/');
    assert x == "/" + j;
    JoinSnoc(a, "", '/');
    assert y == x + "/" + "";
    assert y == "/" + j + "/";
    JoinSnoc(b, file, '/');
    assert z == y + "/" + file;
    assert b + [file] == [""] + dirs + ["", file];
  }

  /** A leading empty piece contributes a leading separator. */
  lemma JoinLeadingEmpty(parts: seq<string>, sep: char)
    requires |parts| >= 1
    ensures Strings.Join([""] + parts, sep) == [sep] + Strings.Join(parts, sep)
  {
    assert ([""] + parts)[1..] == parts;
  }

  /** Cleaning those pieces keeps the directories and the file name. */
  lemma CleanPlainPieces(dirs: seq<string>, file: string)
    requires forall i :: 0 <= i < |dirs| ==> PlainElement(dirs[i])
    requires PlainElement(file)
    ensures CleanElements([""] + dirs + ["", file], [], true) == dirs + [file]
  {
    var parts := [""] + dirs + ["", file];
    var tail := ["", file];
    assert parts[0] == "" && parts[1..] == dirs + tail;
    assert CleanElements(parts, [], true) == CleanElements(dirs + tail, [], true);
    CleanElementsAfterPlain(dirs, tail, []);
    assert [] + dirs == dirs;
    assert tail[0] == "" && tail[1..] == [file];
    assert CleanElements(tail, dirs, true) == CleanElements([file], dirs, true);
    assert [file][0] == file && [file][1..] == [];
    assert CleanElements([file], dirs, true) == CleanElements([], dirs + [file], true);
  }

  /** A rooted directory of plain elements written with a trailing slash,
      joined with a plain file name, is that directory followed by the name. */
  lemma JoinPathOfPlainDirectory(dirs: seq<string>, file: string)
    requires |dirs| >= 1
    requires forall i :: 0 <= i < |dirs| ==> PlainElement(dirs[i])
    requires PlainElement(file)
    ensures JoinPath("/" + Strings.Join(dirs, '/') + "/", file) == "/" + Strings.Join(dirs, '/') + "/" + file
  {
    var j := Strings.Join(dirs, '/');
    var dir := "/" + j + "/";
    var path := dir + "/" + file;
    var parts := [""] + dirs + ["", file];
    assert Strings.Split(path, '/') == parts by {
      PlainPathPieces(dirs, file);
      assert forall i :: 0 <= i < |parts| ==> '/' !in parts[i] by {
        forall i | 0 <= i < |parts| ensures '/' !in parts[i] {
          if i == 0 || i == |dirs| + 1 {
            assert parts[i] == "";
          } else if i == |dirs| + 2 {
            assert parts[i] == file;
          } else {
            assert parts[i] == dirs[i - 1];
          }
        }
      }
      Strings.SplitJoin(parts, '/');
    }
    var kept := dirs + [file];
    assert CleanElements(Strings.Split(path, '/'), [], true) == kept by {
      CleanPlainPieces(dirs, file);
    }
    assert Strings.Join(kept, '/') == j + "/" + file by {
      JoinSnoc(dirs, file, '/');
    }
    assert |dir| >= 2 && path[0] == '/';
    assert Clean(path) == "/" + Strings.Join(kept, '/');
    assert JoinPath(dir, file) == Clean(path);
    Regroup("/", j, "/", file);
  }

  /** Regrouping a concatenation of four strings, kept out of the lemma above
      whose context makes the solver's search for it expensive. */
  lemma Regroup(a: string, b: string, c: string, d: string)
    ensures a + (b + c + d) == a + b + c + d
  {
  }

  /** Plain leading elements are kept, then the rest is cleaned after them. */
  lemma {:induction false} CleanElementsAfterPlain(plain: seq<string>, rest: seq<string>, kept: seq<string>)
    requires forall i :: 0 <= i < |plain| ==> PlainElement(plain[i])
    ensures CleanElements(plain + rest, kept, true) == CleanElements(rest, kept + plain, true)
    decreases |plain|
  {
    if plain != [] {
      assert (plain + rest)[0] == plain[0];
      assert (plain + rest)[1..] == plain[1..] + rest;
      CleanElementsAfterPlain(plain[1..], rest, kept + [plain[0]]);
      assert kept + [plain[0]] + plain[1..] == kept + plain;
    } else {
      assert plain + rest == rest && kept + plain == kept;
    }
  }

  /** The default dump directory is `/var/lib/protocache` written with a trailing slash. */
  lemma DefaultDumpDirectory()
    ensures "/" + Strings.Join(["var", "lib", "protocache"], '/') + "/" == MemoryDumpPath
  {
    var dirs := ["var", "lib", "protocache"];
    assert dirs[1..] == ["lib", "protocache"];
    assert dirs[1..][1..] == ["protocache"];
    assert Strings.Join(dirs, '/') == "var/lib/protocache";
  }

  /** The default dump file is `/var/lib/protocache/protocache.gob.gz`. */
  lemma DefaultDumpFileFullPath(id: string)
    ensures MemoryDumpFileFullPath(DefaultConfig(id)) == "/var/lib/protocache/protocache.gob.gz"
  {
    var dirs := ["var", "lib", "protocache"];
    assert forall i :: 0 <= i < |dirs| ==> PlainElement(dirs[i]);
    DefaultDumpFile();
    JoinPathOfPlainDirectory(dirs, MemoryDumpFileName);
    DefaultDumpDirectory();
  }

  /** The default file name is a single path element, and follows the
      directory to form the full default path. */
  lemma DefaultDumpFile()
    ensures PlainElement(MemoryDumpFileName)
    ensures MemoryDumpPath + MemoryDumpFileName == "/var/lib/protocache/protocache.gob.gz"
  {
  }

  /** `net.JoinHostPort`: a host that contains a colon is bracketed, and the
      port always follows the last colon. */
  function JoinHostPort(host: string, port: string): (r: string)
    ensures |r| > |port| && r[|r| - |port| - 1..] == ":" + port
    ensures ':' in host ==> |r| == |host| + 3 + |port| && r[0] == '[' && r[1..|host| + 1] == host && r[|host| + 1] == ']'
    ensures ':' !in host ==> |r| == |host| + 1 + |port| && r[..|host|] == host
  {
    if ':' in host then "[" + host + "]:" + port else host + ":" + port
  }

  /** Without colons in host or port, splitting the address on `:` gives
      back exactly the host and the port. */
  lemma SplitHostPort(host: string, port: string)
    ensures ':' !in host && ':' !in port ==> Strings.Split(JoinHostPort(host, port), ':') == [host, port]
  {
    if ':' !in host && ':' !in port {
      var parts := [host, port];
      assert Strings.Join(parts, ':') == host + ":" + port by {
        assert parts[1..] == [port];
      }
      Strings.SplitJoin(parts, ':');
    }
  }

  /** The port text `Itoa` writes holds no colon. */
  lemma ItoaHasNoColon(n: int)
    ensures ':' !in Strings.Itoa(n)
  {
    var s := Strings.Itoa(n);
    assert forall i :: 0 <= i < |s| ==> s[i] != ':';
  }

  /** `HTTPListenAddr()`: for a host without a colon, the address splits on
      `:` into the host and a port text that reads back as the HTTP port. */
  function HTTPListenAddr(c: Config): (addr: string)
    ensures ':' !in c.server.listenAddr ==>
      var parts := Strings.Split(addr, ':');
      |parts| == 2 && parts[0] == c.server.listenAddr && Strings.ParseInt(parts[1]) == Some(c.server.httpPort)
  {
    ItoaHasNoColon(c.server.httpPort);
    Strings.ItoaRoundTrip(c.server.httpPort);
    SplitHostPort(c.server.listenAddr, Strings.Itoa(c.server.httpPort));
    JoinHostPort(c.server.listenAddr, Strings.Itoa(c.server.httpPort))
  }

  /** `GRPCListenAddr()`: for a host without a colon, the address splits on
      `:` into the host and a port text that reads back as the gRPC port. */
  function GRPCListenAddr(c: Config): (addr: string)
    ensures ':' !in c.server.listenAddr ==>
      var parts := Strings.Split(addr, ':');
      |parts| == 2 && parts[0] == c.server.listenAddr && Strings.ParseInt(parts[1]) == Some(c.server.grpcPort)
  {
    ItoaHasNoColon(c.server.grpcPort);
    Strings.ItoaRoundTrip(c.server.grpcPort);
    SplitHostPort(c.server.listenAddr, Strings.Itoa(c.server.grpcPort));
    JoinHostPort(c.server.listenAddr, Strings.Itoa(c.server.grpcPort))
  }

  /** A host without a colon and a port read back from the listen address:
      splitting on `:` gives exactly the host and the port's digits. */
  lemma ListenAddrRoundTrip(host: string, port: nat)
    requires ':' !in host
    ensures var parts := Strings.Split(JoinHostPort(host, Strings.Itoa(port)), ':');
      parts == [host, Strings.Digits(port)] && Strings.ParseDigits(parts[1]) == port
  {
    ItoaHasNoColon(port);
    SplitHostPort(host, Strings.Itoa(port));
    Strings.DigitsRoundTrip(port);
  }

  lemma DigitsOfHTTPPort()
    ensures Strings.Digits(HTTPPort) == "9091"
  {
    assert Strings.Digits(9) == "9";
    assert Strings.Digits(90) == "90";
    assert Strings.Digits(909) == "909";
  }

  lemma DigitsOfGRPCPort()
    ensures Strings.Digits(GRPCPort) == "50051"
  {
    assert Strings.Digits(5) == "5";
    assert Strings.Digits(50) == "50";
    assert Strings.Digits(500) == "500";
    assert Strings.Digits(5005) == "5005";
  }

  /** The default listen addresses are `0.0.0.0:9091` and `0.0.0.0:50051`. */
  lemma DefaultListenAddrs(id: string)
    ensures HTTPListenAddr(DefaultConfig(id)) == "0.0.0.0:9091"
    ensures GRPCListenAddr(DefaultConfig(id)) == "0.0.0.0:50051"
  {
    assert ':' !in ListenAddr;
    DigitsOfHTTPPort();
    DigitsOfGRPCPort();
  }

  /** The command-line flags: `-id` (a pointer, `None` for nil),
      `-cluster-members` and `-init-cluster`. */
  datatype CliFlags = CliFlags(id: Option<string>, clusterMembers: string, initCluster: bool)

  /** What `LoadConfig` returned. */
  datatype LoadResult = Loaded(config: Config) | LoadFailed(reason: string)

  /** The configuration the flags are merged over: the loaded one, or the
      defaults when loading failed. */
  function FileConfig(loaded: LoadResult, freshId: string): Config
  {
    if loaded.Loaded? then loaded.config else DefaultConfig(freshId)
  }

  /** `LoadAndMergeConfig`: a non-empty `-id` replaces the ID, a non-empty
      `-cluster-members` replaces the members by its comma-separated pieces,
      `-init-cluster` is always taken, and everything else comes from the file
      (or the defaults). A load error is returned alongside the merged config. */
  method LoadAndMergeConfig(cli: CliFlags, loaded: LoadResult, freshId: string) returns (cfg: Config, err: Option<string>)
    ensures var base := FileConfig(loaded, freshId);
      && cfg.id == (if cli.id.Some? && cli.id.value != "" then cli.id.value else base.id)
      && (cli.clusterMembers == "" ==> cfg.clusterMembers == base.clusterMembers)
      && cfg.initCluster == cli.initCluster
      && cfg.server == base.server && cfg.store == base.store
    ensures cli.clusterMembers != "" ==>
      && cfg.clusterMembers == Strings.Split(cli.clusterMembers, ',')
      && Strings.Join(cfg.clusterMembers, ',') == cli.clusterMembers
      && (forall i :: 0 <= i < |cfg.clusterMembers| ==> ',' !in cfg.clusterMembers[i])
    ensures err == None <==> loaded.Loaded?
    ensures loaded.LoadFailed? ==> err == Some(loaded.reason) && cfg.server == DefaultConfig(freshId).server
  {
    var fileCfg := if loaded.Loaded? then loaded.config else DefaultConfig(freshId);
    cfg := fileCfg;
    if cli.id.Some? && cli.id.value != "" {
      cfg := cfg.(id := cli.id.value);
    }
    if |cli.clusterMembers| > 0 && cli.clusterMembers != "" {
      cfg := cfg.(clusterMembers := Strings.Split(cli.clusterMembers, ','));
      Strings.JoinSplit(cli.clusterMembers, ',');
    }
    cfg := cfg.(initCluster := cli.initCluster);
    err := if loaded.LoadFailed? then Some(loaded.reason) else None;
  }
}
