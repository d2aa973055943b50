/**
 * Where the file driver writes: its configuration, the base directory, the
 * main log file of a request, the file of an apart level, the file pruned
 * when `max_files` is exceeded and the backup name of a file rotated for
 * size.
 */
module FilePaths {
  import opened Php
  import opened Paths

  /** `single`: `false`/`true`, or a string that names the single file. */
  datatype Single = Flag(on: bool) | Named(name: string)

  /** `apart_level`: `true` (every level) or a list of level names. */
  datatype Apart = AllLevels | Listed(levels: seq<string>)

  /**
   * The driver's configuration after the caller's array was merged over the
   * defaults. `time_format` only shapes the timestamp, which comes from the clock.
   */
  datatype FileConfig = FileConfig(
    appGuid: string,
    appName: string,
    single: Single,
    fileSize: real,
    path: string,
    apart: Apart,
    maxFiles: int,
    json: bool)

  /** The defaults: one file per day in a month directory, 2 MiB, no apart levels, no pruning, text. */
  const DefaultConfig := FileConfig("", "", Flag(false), 2097152.0, "", Listed([]), 0, false)

  /** What the clock says for this request: `date('Ym')`, `date('d')`, `date('Ymd')`, `time()`, the timestamp. */
  datatype Clock = Clock(ym: string, d: string, ymd: string, unix: nat, stamp: string)

  /** Every `date` field is a non-empty run of decimal digits. */
  predicate Digits(s: string) {
    s != [] && forall i :: 0 <= i < |s| ==> '0' <= s[i] <= '9'
  }

  predicate ValidClock(c: Clock) {
    Digits(c.ym) && Digits(c.d) && Digits(c.ymd)
  }

  /** `if ($this->config['single'])`. */
  predicate SingleOn(s: Single) {
    match s
    case Flag(b) => b
    case Named(n) => !FalsyString(n)
  }

  /** The single file's stem: the configured string, or "single" for `true`. */
  function SingleName(s: Single): string {
    if s.Named? then s.name else "single"
  }

  /** `true === apart_level || in_array($type, apart_level)`. */
  predicate IsApart(a: Apart, level: string) {
    a.AllLevels? || level in a.levels
  }

  /** "_cli" under the command line, "" otherwise. */
  function CliTag(cli: bool): string {
    if cli then "_cli" else ""
  }

  /**
   * The storage directory: `<root>/logs/` when `path` is empty (or "0"), else
   * `path` with a `/` added when it lacks one.
   */
  function NormalizeBase(path: string, root: string): (r: string)
    ensures r != [] && r[|r| - 1] == '/'
    ensures FalsyString(path) ==> r == root + "/logs/"
    ensures !FalsyString(path) ==> r == path || r == path + "/"
  {
    if FalsyString(path) then root + "/logs/"
    else if path[|path| - 1] != '/' then path + "/"
    else path
  }

  /** Normalising twice is normalising once. */
  lemma NormalizeIdempotent(path: string, root: string)
    ensures NormalizeBase(NormalizeBase(path, root), root) == NormalizeBase(path, root)
  {
    var r := NormalizeBase(path, root);
    assert !FalsyString(r) by {
      assert r[|r| - 1] == '/';
    }
  }

  /** A path that already ends in `/` (and is not "0") is kept as given. */
  lemma NormalizeKeepsSlashed(path: string, root: string)
    requires path != [] && path[|path| - 1] == '/'
    ensures NormalizeBase(path, root) == path
  {
    assert path != "0" by { assert path[|path| - 1] != '0'; }
  }

  /** The main file's name without its directory. */
  function MainName(cfg: FileConfig, clock: Clock, cli: bool): string {
    if SingleOn(cfg.single) then SingleName(cfg.single) + ".log"
    else if cfg.maxFiles != 0 then clock.ymd + CliTag(cli) + ".log"
    else clock.d + CliTag(cli) + ".log"
  }

  /**
   * `getMasterLogFile`: `<base><single>.log`; `<base>Ymd[_cli].log` when
   * `max_files` is set; `<base>Ym/d[_cli].log` otherwise.
   */
  function MainDestination(cfg: FileConfig, base: string, clock: Clock, cli: bool): (r: string)
    ensures base <= r
    ensures SingleOn(cfg.single) ==> r == base + MainName(cfg, clock, cli)
    ensures !SingleOn(cfg.single) && cfg.maxFiles != 0 ==> r == base + MainName(cfg, clock, cli)
    ensures !SingleOn(cfg.single) && cfg.maxFiles == 0 ==> r == base + clock.ym + "/" + MainName(cfg, clock, cli)
  {
    if SingleOn(cfg.single) then base + SingleName(cfg.single) + ".log"
    else if cfg.maxFiles != 0 then base + clock.ymd + CliTag(cli) + ".log"
    else base + clock.ym + "/" + clock.d + CliTag(cli) + ".log"
  }

  /** The directory that holds the main file, as `dirname` computes it. */
  function MainDirectory(cfg: FileConfig, base: string, clock: Clock, cli: bool): string {
    Dirname(MainDestination(cfg, base, clock, cli))
  }

  /**
   * Where the main file lands: the month directory `<base>Ym` in the default
   * mode, the base directory otherwise, and its name is `MainName`; "_cli"
   * marks it exactly when the run is on the command line and no single file
   * is configured.
   */
  lemma MainPlacement(cfg: FileConfig, base: string, clock: Clock, cli: bool)
    requires base != [] && base[|base| - 1] == '/'
    requires ValidClock(clock)
    requires '/' !in SingleName(cfg.single)
    ensures Basename(MainDestination(cfg, base, clock, cli)) == MainName(cfg, clock, cli)
    ensures !SingleOn(cfg.single) && cfg.maxFiles == 0 ==>
      MainDirectory(cfg, base, clock, cli) == base + clock.ym
    ensures SingleOn(cfg.single) || cfg.maxFiles != 0 ==>
      MainDirectory(cfg, base, clock, cli) == DirOf(base)
  {
    var name := MainName(cfg, clock, cli);
    assert name != [] && '/' !in name by {
      assert name[|name| - 1] == 'g';
      NoSlashInStem(cfg, clock, cli);
    }
    if !SingleOn(cfg.single) && cfg.maxFiles == 0 {
      var dir := base + clock.ym + "/";
      assert base + clock.ym + "/" + name == dir + name;
      ChildPath(dir, name);
      assert StripSlashes(dir) == StripSlashes(base + clock.ym) by {
        assert dir[..|dir| - 1] == base + clock.ym;
      }
      assert clock.ym[|clock.ym| - 1] != '/';
      assert (base + clock.ym)[|base + clock.ym| - 1] == clock.ym[|clock.ym| - 1];
    } else {
      ChildPath(base, name);
    }
  }

  lemma NoSlashInStem(cfg: FileConfig, clock: Clock, cli: bool)
    requires ValidClock(clock)
    requires '/' !in SingleName(cfg.single)
    ensures '/' !in MainName(cfg, clock, cli)
  {
    var name := MainName(cfg, clock, cli);
    forall i | 0 <= i < |name| ensures name[i] != '/' {
      if SingleOn(cfg.single) {
        var s := SingleName(cfg.single);
        if i < |s| { assert name[i] == s[i]; }
      } else if cfg.maxFiles != 0 {
        if i < |clock.ymd| { assert name[i] == clock.ymd[i]; }
      } else {
        if i < |clock.d| { assert name[i] == clock.d[i]; }
      }
    }
  }

  /** The name of an apart level's file, without its directory. */
  function ApartName(cfg: FileConfig, clock: Clock, cli: bool, level: string): string {
    if SingleOn(cfg.single) then SingleName(cfg.single) + "_" + level + ".log"
    else if cfg.maxFiles != 0 then clock.ymd + "_" + level + CliTag(cli) + ".log"
    else clock.d + "_" + level + CliTag(cli) + ".log"
  }

  /**
   * `getApartLevelFile($path, $type)`: `<path>/<single>_<type>.log`,
   * `<path>/Ymd_<type>[_cli].log` or `<path>/d_<type>[_cli].log`, where
   * `$path` is the main file's directory.
   */
  function ApartDestination(cfg: FileConfig, dir: string, clock: Clock, cli: bool, level: string): (r: string)
    ensures r == dir + "/" + ApartName(cfg, clock, cli, level)
  {
    var cliTag := CliTag(cli);
    var name :=
      if SingleOn(cfg.single) then SingleName(cfg.single) + "_" + level
      else if cfg.maxFiles != 0 then clock.ymd + "_" + level + cliTag
      else clock.d + "_" + level + cliTag;
    dir + "/" + name + ".log"
  }

  /**
   * An apart level's file sits next to the main file (in the month directory
   * in the default mode), and it is never the main file itself.
   */
  lemma ApartBesideMain(cfg: FileConfig, base: string, clock: Clock, cli: bool, level: string)
    requires base != [] && base[|base| - 1] == '/'
    requires ValidClock(clock)
    requires '/' !in SingleName(cfg.single) && '/' !in level
    ensures var main := MainDestination(cfg, base, clock, cli);
      var apart := ApartDestination(cfg, Dirname(main), clock, cli, level);
      && Dirname(apart) == Dirname(main)
      && Basename(apart) == ApartName(cfg, clock, cli, level)
      && apart != main
  {
    var main := MainDestination(cfg, base, clock, cli);
    var name := ApartName(cfg, clock, cli, level);
    assert name != [] && '/' !in name by {
      assert name[|name| - 1] == 'g';
      ApartNameNoSlash(cfg, clock, cli, level);
    }
    SiblingPath(main, name);
    MainPlacement(cfg, base, clock, cli);
    assert |name| > |MainName(cfg, clock, cli)|;
  }

  lemma ApartNameNoSlash(cfg: FileConfig, clock: Clock, cli: bool, level: string)
    requires ValidClock(clock)
    requires '/' !in SingleName(cfg.single) && '/' !in level
    ensures '/' !in ApartName(cfg, clock, cli, level)
  {
    DigitsNoSlash(clock.ymd);
    DigitsNoSlash(clock.d);
    assert '/' !in "_" && '/' !in ".log" && '/' !in CliTag(cli);
  }

  lemma DigitsNoSlash(s: string)
    requires Digits(s)
    ensures '/' !in s
  {
    forall i | 0 <= i < |s| ensures s[i] != '/' {
    }
  }

  /** `dir . '/' . (prefix . '-' . name)`, regrouped. */
  lemma PrefixedSibling(dir: string, prefix: string, name: string)
    ensures dir + "/" + (prefix + "-" + name) == dir + "/" + prefix + "-" + name
  {
  }

  /** `a . (stem . '_' . level . tag) . ext`, regrouped. */
  lemma GlueName(a: string, stem: string, level: string, tag: string, ext: string)
    ensures a + (stem + "_" + level + tag) + ext == a + stem + "_" + level + (tag + ext)
  {
  }

  /** Two different levels never share an apart file. */
  lemma ApartFilesDistinct(cfg: FileConfig, dir: string, clock: Clock, cli: bool, a: string, b: string)
    requires a != b
    ensures ApartDestination(cfg, dir, clock, cli, a) != ApartDestination(cfg, dir, clock, cli, b)
  {
    var pre := dir + "/" + ApartStem(cfg, clock) + "_";
    var tag := ApartTag(cfg, cli);
    ApartShape(cfg, dir, clock, cli, a);
    ApartShape(cfg, dir, clock, cli, b);
    Middle(pre, a, tag);
    Middle(pre, b, tag);
  }

  function ApartStem(cfg: FileConfig, clock: Clock): string {
    if SingleOn(cfg.single) then SingleName(cfg.single)
    else if cfg.maxFiles != 0 then clock.ymd else clock.d
  }

  function ApartTag(cfg: FileConfig, cli: bool): string {
    if SingleOn(cfg.single) then ".log" else CliTag(cli) + ".log"
  }

  lemma ApartShape(cfg: FileConfig, dir: string, clock: Clock, cli: bool, level: string)
    ensures ApartDestination(cfg, dir, clock, cli, level)
         == dir + "/" + ApartStem(cfg, clock) + "_" + level + ApartTag(cfg, cli)
  {
    var stem := ApartStem(cfg, clock);
    if SingleOn(cfg.single) {
      assert ApartDestination(cfg, dir, clock, cli, level) == dir + "/" + (stem + "_" + level) + ".log";
      GlueName(dir + "/", stem, level, "", ".log");
      assert stem + "_" + level + "" == stem + "_" + level;
      assert dir + "/" + stem + "_" + level + "" == dir + "/" + stem + "_" + level;
    } else {
      var t := CliTag(cli);
      assert ApartDestination(cfg, dir, clock, cli, level) == dir + "/" + (stem + "_" + level + t) + ".log";
      GlueName(dir + "/", stem, level, t, ".log");
    }
  }

  /** The middle part of a concatenation can be cut back out. */
  lemma Middle(p: string, x: string, t: string)
    ensures (p + x + t)[|p|..|p + x + t| - |t|] == x
  {
  }

  /**
   * The file `getMasterLogFile` deletes: with `max_files` set and more `*.log`
   * files in the base directory than it allows, the first one `glob` lists
   * (the alphabetically smallest, so the oldest dated name); never more than one.
   */
  function PruneTarget(cfg: FileConfig, listing: seq<string>): (r: Option<string>)
    ensures r.Some? <==> cfg.maxFiles != 0 && |listing| > cfg.maxFiles && listing != []
    ensures r.Some? ==> r.value == listing[0]
  {
    if cfg.maxFiles != 0 && |listing| > cfg.maxFiles && listing != [] then Some(listing[0]) else None
  }

  /**
   * `checkLogSize`: an existing file of at least `floor(file_size)` bytes is
   * renamed to `<dir>/<time()>-<name>` before the write.
   */
  function RotationTarget(cfg: FileConfig, sizes: map<string, nat>, dest: string, unix: nat): (r: Option<string>)
    ensures r.Some? <==> dest in sizes && cfg.fileSize.Floor <= sizes[dest]
  {
    if dest in sizes && cfg.fileSize.Floor <= sizes[dest]
    then Some(Dirname(dest) + "/" + NatToString(unix) + "-" + Basename(dest))
    else None
  }

  /**
   * A rotated file stays in its directory, keeps its name behind a
   * `<time()>-` prefix, and never lands on the path it came from.
   */
  lemma RotationKeepsName(cfg: FileConfig, sizes: map<string, nat>, dest: string, unix: nat)
    requires dest != [] && dest[|dest| - 1] != '/'
    requires RotationTarget(cfg, sizes, dest, unix).Some?
    ensures var t := RotationTarget(cfg, sizes, dest, unix).value;
      && Dirname(t) == Dirname(dest)
      && Basename(t) == NatToString(unix) + "-" + Basename(dest)
      && t != dest
  {
    var b := Basename(dest);
    assert StripSlashes(dest) == dest;
    var k := |StripName(dest)|;
    assert '/' !in b by {
      forall i | 0 <= i < |b| ensures b[i] != '/' {
        assert b[i] == dest[k + i];
      }
    }
    var digits := NatToString(unix);
    assert '/' !in digits by {
      forall i | 0 <= i < |digits| ensures digits[i] != '/' {
      }
    }
    var name := digits + "-" + b;
    assert '/' !in name;
    SiblingPath(dest, name);
    PrefixedSibling(Dirname(dest), digits, b);
    assert |name| > |b|;
  }
}
