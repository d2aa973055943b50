/**
 * The file driver's `save`: prune the oldest file, make the log directory,
 * render each level's messages, send apart levels to files of their own,
 * and append the rest to the main file, rotating a file that has grown past
 * its limit just before it is written.
 *
 * The filesystem is not executed: `save` is described by the list of
 * filesystem effects it issues, in order, and what it can observe (the glob
 * listing, the existing directories and file sizes, whether `error_log`
 * succeeds on a path) is an input.
 */
module FileSink {
  import opened Php
  import opened Paths
  import opened FilePaths
  import opened FileFormat
  import Log

  /**
   * One filesystem call of `save`, in issue order. An append writes the
   * record `write` builds from `message`; its bytes are `Bytes(d, env, message)`.
   */
  datatype Effect =
    | Unlink(path: string)
    | MakeDir(path: string)
    | Rename(from: string, to: string)
    | Append(path: string, message: Lines)

  /**
   * What one call can observe: the clock, whether it runs on the command line,
   * the current request, `glob(<base>*.log)` in `glob`'s sorted order, the
   * directories and regular files (with their sizes) that exist, and whether
   * `error_log` manages to append to a given path.
   */
  datatype Env = Env(
    clock: Clock,
    cli: bool,
    req: Request,
    listing: seq<string>,
    dirs: set<string>,
    sizes: map<string, nat>,
    appendOk: string -> bool)

  /** A constructed driver: its configuration (with the normalised `path`) and `$custominfo`. */
  datatype Driver = Driver(config: FileConfig, custom: Fields)

  /** The effects a call issued and the boolean it returned. */
  datatype Outcome = Outcome(effects: seq<Effect>, ok: bool)

  // ---------------------------------------------------------------------
  // Construction and custom fields
  // ---------------------------------------------------------------------

  /** `$custominfo` before any caller adds to it: `uid`, `username`, `nickname`, all "". */
  const DefaultCustom: Fields := [("uid", Scalar("")), ("username", Scalar("")), ("nickname", Scalar(""))]

  /**
   * `setCustominfo`: a non-empty array is merged over the current fields
   * (`array_merge`: its values win, new keys go last); an empty one changes nothing.
   */
  function MergeCustom(current: Fields, custom: Fields): (r: Fields)
    requires Distinct(custom)
    ensures custom == [] ==> r == current
    ensures forall k :: Get(r, k) == (if k in Keys(custom) then Get(custom, k) else Get(current, k))
    ensures Distinct(current) ==> Distinct(r)
  {
    if custom == [] then current else Merge(current, custom)
  }

  /**
   * The constructor: the configuration with `path` normalised against the
   * package root, and the caller's custom fields merged over the defaults.
   */
  function NewDriver(config: FileConfig, custom: Fields, root: string): (d: Driver)
    requires Distinct(custom)
    ensures d.config == config.(path := NormalizeBase(config.path, root))
    ensures d.config.path != [] && d.config.path[|d.config.path| - 1] == '/'
    ensures Distinct(d.custom)
    ensures forall k :: Get(d.custom, k) == (if k in Keys(custom) then Get(custom, k) else Get(DefaultCustom, k))
  {
    assert Distinct(DefaultCustom);
    Driver(config.(path := NormalizeBase(config.path, root)), MergeCustom(DefaultCustom, custom))
  }

  /** `setCustominfo` on a driver. */
  function SetCustominfo(d: Driver, custom: Fields): (r: Driver)
    requires Distinct(custom)
    ensures r.config == d.config
    ensures forall k :: Get(r.custom, k) == (if k in Keys(custom) then Get(custom, k) else Get(d.custom, k))
  {
    d.(custom := MergeCustom(d.custom, custom))
  }

  /** The three default custom fields are always present, whatever callers merged in. */
  lemma DefaultCustomKept(config: FileConfig, custom: Fields, root: string, later: seq<Fields>)
    requires Distinct(custom)
    requires forall i :: 0 <= i < |later| ==> Distinct(later[i])
    ensures var d := SetAll(NewDriver(config, custom, root), later);
      "uid" in Keys(d.custom) && "username" in Keys(d.custom) && "nickname" in Keys(d.custom)
  {
    var d0 := NewDriver(config, custom, root);
    DefaultKeys();
    forall k | k in Keys(DefaultCustom) ensures k in Keys(d0.custom) {
      assert Get(d0.custom, k).Some? by {
        assert Get(DefaultCustom, k).Some?;
        if k in Keys(custom) {
          assert Get(custom, k).Some?;
        }
      }
    }
    SetAllKeepsKeys(d0, later);
  }

  lemma DefaultKeys()
    ensures Keys(DefaultCustom) == ["uid", "username", "nickname"]
  {
  }

  /** Several `setCustominfo` calls in a row. */
  function SetAll(d: Driver, later: seq<Fields>): (r: Driver)
    requires forall i :: 0 <= i < |later| ==> Distinct(later[i])
    ensures r.config == d.config
    decreases |later|
  {
    if later == [] then d else SetAll(SetCustominfo(d, later[0]), later[1..])
  }

  /** No `setCustominfo` call ever drops a key. */
  lemma {:induction false} SetAllKeepsKeys(d: Driver, later: seq<Fields>)
    requires forall i :: 0 <= i < |later| ==> Distinct(later[i])
    ensures forall k :: k in Keys(d.custom) ==> k in Keys(SetAll(d, later).custom)
    decreases |later|
  {
    if later != [] {
      var next := SetCustominfo(d, later[0]);
      forall k | k in Keys(d.custom) ensures k in Keys(next.custom) {
        assert Get(d.custom, k).Some?;
      }
      SetAllKeepsKeys(next, later[1..]);
    }
  }

  // ---------------------------------------------------------------------
  // write
  // ---------------------------------------------------------------------

  /** A message as `save` sees it: a string as is, anything else through `var_export`. */
  function MsgText(m: Log.Msg): string {
    match m
    case Text(t) => t
    case Structured(e) => e
  }

  /** The lines `save` accumulates for one level: `[ type ] msg` as text, the message alone as JSON. */
  function Rendered(level: string, msgs: seq<Log.Msg>, json: bool): (r: seq<string>)
    ensures |r| == |msgs|
    ensures forall i :: 0 <= i < |msgs| ==> r[i] == RenderLine(level, MsgText(msgs[i]), json)
  {
    RenderAll(level, seq(|msgs|, i requires 0 <= i < |msgs| => MsgText(msgs[i])), json)
  }

  /**
   * What `write` hands `error_log` for `message`: the assembled record,
   * serialised by `parseCliLog` on the command line and by `parseLog` otherwise.
   */
  function Bytes(d: Driver, env: Env, message: Lines): Payload
    requires LogType !in Keys(message)
  {
    var info := Assemble(message, env.clock.stamp);
    if env.cli then ParseCliLog(info, d.config.json)
    else ParseLog(d.config.appGuid, d.config.appName, env.req, env.clock.stamp, d.custom, info, d.config.json)
  }

  /**
   * In a web request a text record opens with a CRLF and the entry `0:`
   * holding the delimiter built from this request's stamp, ip, method, host
   * and uri; the other fields follow one per line.
   */
  lemma WebTextBytes(d: Driver, env: Env, message: Lines)
    requires LogType !in Keys(message)
    requires !env.cli && !d.config.json
    requires NoIntKeys(Combined(RequestInfo(d.config.appGuid, d.config.appName, env.req, env.clock.stamp),
                                d.custom, Assemble(message, env.clock.stamp)))
    ensures var rest := DropShown(Combined(RequestInfo(d.config.appGuid, d.config.appName, env.req, env.clock.stamp),
                                           d.custom, Assemble(message, env.clock.stamp)));
      Bytes(d, env, message)
      == Plain(CRLF + "0:" + Delimiter(env.clock.stamp, env.req.ip, env.req.verb, env.req.host, env.req.uri)
               + (if Pieces(Arr(rest), 0, CRLF, ":") == [] then "" else CRLF + Array2String(rest, CRLF, ":"))
               + CRLF)
  {
    ParseLogText(d.config.appGuid, d.config.appName, env.req, env.clock.stamp, d.custom,
                 Assemble(message, env.clock.stamp));
  }

  /** On the command line, a one-level text write is `[stamp]`, "Array" for the level list, then the lines. */
  lemma CliTextBytes(d: Driver, env: Env, level: string, lines: seq<string>)
    requires level != Timestamp && level != LogType
    requires env.cli && !d.config.json
    ensures Bytes(d, env, [(level, lines)])
         == Plain("[" + env.clock.stamp + "]" + "Array" + CRLF + Join(lines, CRLF) + CRLF)
  {
    assert Keys([(level, lines)]) == [level];
    CliOneLevel(level, lines, env.clock.stamp);
  }

  /** The messages carried by the appends among `es`, with their paths, in order. */
  function Appends(es: seq<Effect>): seq<(string, Lines)> {
    if es == [] then []
    else (if es[0].Append? then [(es[0].path, es[0].message)] else []) + Appends(es[1..])
  }

  lemma {:induction false} AppendsConcat(a: seq<Effect>, b: seq<Effect>)
    ensures Appends(a + b) == Appends(a) + Appends(b)
    decreases |a|
  {
    if a == [] {
      assert a + b == b;
    } else {
      assert (a + b)[0] == a[0];
      assert (a + b)[1..] == a[1..] + b;
      AppendsConcat(a[1..], b);
    }
  }

  /** The files the effects delete, in order. */
  function Unlinked(es: seq<Effect>): seq<string> {
    if es == [] then []
    else (if es[0].Unlink? then [es[0].path] else []) + Unlinked(es[1..])
  }

  /** The directories the effects create, in order. */
  function DirsMade(es: seq<Effect>): seq<string> {
    if es == [] then []
    else (if es[0].MakeDir? then [es[0].path] else []) + DirsMade(es[1..])
  }

  lemma {:induction false} HousekeepingConcat(a: seq<Effect>, b: seq<Effect>)
    ensures Unlinked(a + b) == Unlinked(a) + Unlinked(b)
    ensures DirsMade(a + b) == DirsMade(a) + DirsMade(b)
    decreases |a|
  {
    if a == [] {
      assert a + b == b;
    } else {
      assert (a + b)[0] == a[0];
      assert (a + b)[1..] == a[1..] + b;
      HousekeepingConcat(a[1..], b);
    }
  }

  /**
   * `write($message, $destination)`: rotate the file if it has reached the
   * size limit, assemble the record, serialise it and append it. The result
   * is whatever `error_log` returns.
   */
  function WriteFile(d: Driver, env: Env, sizes: map<string, nat>, message: Lines, dest: string): (r: Outcome)
    requires LogType !in Keys(message)
    ensures r.ok == env.appendOk(dest)
    ensures Appends(r.effects) == [(dest, message)]
    ensures r.effects[|r.effects| - 1] == Append(dest, message)
    ensures |r.effects| == 2 <==> dest in sizes && d.config.fileSize.Floor <= sizes[dest]
    ensures |r.effects| == 2 ==> r.effects[0] == Rename(dest, RotationTarget(d.config, sizes, dest, env.clock.unix).value)
    ensures 1 <= |r.effects| <= 2
    ensures Unlinked(r.effects) == [] && DirsMade(r.effects) == []
  {
    var rotate := RotationTarget(d.config, sizes, dest, env.clock.unix);
    var write := [Append(dest, message)];
    assert Appends(write) == [(dest, message)];
    assert Unlinked(write) == [] && DirsMade(write) == [];
    if rotate.Some? then
      var es := [Rename(dest, rotate.value)] + write;
      assert Appends(es) == Appends(es[1..]) && es[1..] == write;
      assert Unlinked(es) == Unlinked(write) && DirsMade(es) == DirsMade(write);
      Outcome(es, env.appendOk(dest))
    else Outcome(write, env.appendOk(dest))
  }

  // ---------------------------------------------------------------------
  // save
  // ---------------------------------------------------------------------

  /** The lines accumulated for a level so far (none when it has no entry). */
  function LinesOf(info: Lines, t: string): seq<string> {
    match Get(info, t)
    case Some(lines) => lines
    case None => []
  }

  /** What the loop of `save` issues and the `$info` it leaves for the main file. */
  datatype Walked = Walked(effects: seq<Effect>, info: Lines)

  /**
   * The message handed to the apart file of level `t`: as written, the whole
   * `$info` accumulated so far; corrected, the level's own lines only.
   */
  function ApartMessage(info: Lines, t: string, isolate: bool): Lines {
    if isolate then [(t, LinesOf(info, t))] else info
  }

  /** The keys of `info` and of the levels still to come are apart: PHP arrays never repeat a key. */
  predicate Fresh(batch: Log.Batch, info: Lines) {
    && Distinct(batch)
    && LogType !in Keys(batch)
    && LogType !in Keys(info)
    && forall k :: k in Keys(info) ==> k !in Keys(batch)
  }

  /** The level in front is new to `info`, and the rest of the levels are fresh too. */
  lemma FreshHead(batch: Log.Batch, info: Lines)
    requires batch != [] && Fresh(batch, info)
    ensures batch[0].0 !in Keys(info) && batch[0].0 != LogType
    ensures Fresh(batch[1..], info)
  {
    assert Keys(batch) == [batch[0].0] + Keys(batch[1..]);
    DistinctTail(batch);
    DistinctHead(batch);
  }

  /**
   * `$info[$type][] = …` for every message of the level in front: a level
   * with messages gets its rendered lines as a new last entry, an empty one
   * gets nothing.
   */
  function Collect(batch: Log.Batch, info: Lines, json: bool): (r: Lines)
    requires batch != [] && Fresh(batch, info)
    ensures r == if batch[0].1 == [] then info else info + [(batch[0].0, Rendered(batch[0].0, batch[0].1, json))]
    ensures Fresh(batch[1..], r)
  {
    var t := batch[0].0;
    FreshHead(batch, info);
    if batch[0].1 == [] then info
    else
      var lines := Rendered(t, batch[0].1, json);
      assert Get(info, t) == None;
      assert LinesOf(info, t) + lines == lines;
      FreshAppend(batch[1..], info, t, lines);
      Set(info, t, LinesOf(info, t) + lines)
  }

  lemma FreshAppend(rest: Log.Batch, info: Lines, t: string, lines: seq<string>)
    requires Fresh(rest, info) && t !in Keys(rest) && t != LogType
    ensures Fresh(rest, info + [(t, lines)])
  {
    KeysConcat(info, [(t, lines)]);
    assert Keys([(t, lines)]) == [t];
  }

  /** `unset($info[$type])` after the apart write gives back `info` as it was before the level. */
  lemma UnsetCollected(batch: Log.Batch, info: Lines, json: bool)
    requires batch != [] && Fresh(batch, info)
    ensures Remove(Collect(batch, info, json), batch[0].0) == info
  {
    FreshHead(batch, info);
    if batch[0].1 != [] {
      RemoveLast(info, batch[0].0, Rendered(batch[0].0, batch[0].1, json));
    }
  }

  /** The loop of `save` over the levels, from the current `$info` on. */
  function Walk(d: Driver, env: Env, sizes: map<string, nat>, dir: string,
                batch: Log.Batch, info: Lines, isolate: bool): (r: Walked)
    requires Fresh(batch, info)
    ensures LogType !in Keys(r.info)
    ensures Unlinked(r.effects) == [] && DirsMade(r.effects) == []
    decreases |batch|
  {
    if batch == [] then Walked([], info)
    else
      var t := batch[0].0;
      var info1 := Collect(batch, info, d.config.json);
      FreshHead(batch, info);
      if IsApart(d.config.apart, t) then
        assert Keys([(t, LinesOf(info1, t))]) == [t];
        var w := WriteFile(d, env, sizes, ApartMessage(info1, t, isolate), ApartDestination(d.config, dir, env.clock, env.cli, t));
        var info2 := Remove(info1, t);
        UnsetCollected(batch, info, d.config.json);
        var rest := Walk(d, env, sizes, dir, batch[1..], info2, isolate);
        HousekeepingConcat(w.effects, rest.effects);
        Walked(w.effects + rest.effects, rest.info)
      else
        Walk(d, env, sizes, dir, batch[1..], info1, isolate)
  }

  /** The file `getMasterLogFile` prunes, if any. */
  function Pruned(d: Driver, env: Env): Option<string> {
    PruneTarget(d.config, env.listing)
  }

  /** The file sizes the writes see: the pruned file is gone. */
  function SizesAfterPrune(d: Driver, env: Env): (r: map<string, nat>)
    ensures forall p :: p in r <==> p in env.sizes && Pruned(d, env) != Some(p)
    ensures forall p :: p in r ==> r[p] == env.sizes[p]
  {
    match Pruned(d, env)
    case Some(p) => env.sizes - {p}
    case None => env.sizes
  }

  /** The main file of this call. */
  function Destination(d: Driver, env: Env): string {
    MainDestination(d.config, d.config.path, env.clock, env.cli)
  }

  /** The effects before any write: the prune, then the directory when it does not exist yet. */
  function Prelude(d: Driver, env: Env): (r: seq<Effect>)
    ensures Appends(r) == []
    ensures Unlinked(r) == Pruning(d.config, env.listing)
    ensures DirsMade(r) == MissingDir(Dirname(Destination(d, env)), env.dirs)
  {
    var dir := Dirname(Destination(d, env));
    var unlink := match Pruned(d, env) case Some(p) => [Unlink(p)] case None => [];
    var mkdir := if dir in env.dirs then [] else [MakeDir(dir)];
    AppendsConcat(unlink, mkdir);
    PreludeParts(d, env, unlink, mkdir);
    unlink + mkdir
  }

  lemma PreludeParts(d: Driver, env: Env, unlink: seq<Effect>, mkdir: seq<Effect>)
    requires unlink == match Pruned(d, env) case Some(p) => [Unlink(p)] case None => []
    requires var dir := Dirname(Destination(d, env)); mkdir == if dir in env.dirs then [] else [MakeDir(dir)]
    ensures Unlinked(unlink + mkdir) == Pruning(d.config, env.listing)
    ensures DirsMade(unlink + mkdir) == MissingDir(Dirname(Destination(d, env)), env.dirs)
  {
    HousekeepingConcat(unlink, mkdir);
    assert Unlinked(mkdir) == [] && DirsMade(unlink) == [];
    assert Unlinked(unlink) == Pruning(d.config, env.listing);
    assert DirsMade(mkdir) == MissingDir(Dirname(Destination(d, env)), env.dirs);
  }

  /** The deletions `max_files` asks for: the first listed file when the listing exceeds it, else none. */
  function Pruning(cfg: FileConfig, listing: seq<string>): seq<string> {
    match PruneTarget(cfg, listing)
    case Some(p) => [p]
    case None => []
  }

  /** `mkdir` of the log directory exactly when it does not exist yet. */
  function MissingDir(dir: string, dirs: set<string>): seq<string> {
    if dir in dirs then [] else [dir]
  }

  /** `save($log)`, with the apart write as written (`isolate` false) or corrected (`isolate` true). */
  function SaveWith(d: Driver, env: Env, batch: Log.Batch, isolate: bool): (r: Outcome)
    requires Distinct(batch) && LogType !in Keys(batch)
    ensures Prelude(d, env) <= r.effects
    ensures Unlinked(r.effects) == Pruning(d.config, env.listing)
    ensures DirsMade(r.effects) == MissingDir(Dirname(Destination(d, env)), env.dirs)
  {
    var sizes := SizesAfterPrune(d, env);
    var dest := Destination(d, env);
    var pre := Prelude(d, env);
    var w := Walk(d, env, sizes, Dirname(dest), batch, [], isolate);
    HousekeepingConcat(pre, w.effects);
    assert Unlinked(pre + w.effects) == Unlinked(pre) + [];
    assert DirsMade(pre + w.effects) == DirsMade(pre) + [];
    if w.info != [] then
      var m := WriteFile(d, env, sizes, w.info, dest);
      HousekeepingConcat(pre + w.effects, m.effects);
      assert Unlinked(pre + w.effects + m.effects) == Unlinked(pre + w.effects) + [];
      assert DirsMade(pre + w.effects + m.effects) == DirsMade(pre + w.effects) + [];
      Outcome(pre + w.effects + m.effects, m.ok)
    else Outcome(pre + w.effects, true)
  }

  // ---------------------------------------------------------------------
  // Where the lines go
  // ---------------------------------------------------------------------

  /** The levels the main file receives: every non-apart level with messages, its lines rendered, in order. */
  function MainLines(cfg: FileConfig, batch: Log.Batch): Lines {
    if batch == [] then []
    else
      var t := batch[0].0;
      var msgs := batch[0].1;
      (if !IsApart(cfg.apart, t) && msgs != [] then [(t, Rendered(t, msgs, cfg.json))] else [])
        + MainLines(cfg, batch[1..])
  }

  /** The apart files of the intended `save`: each apart level alone in its own file, in order. */
  function ApartPlan(cfg: FileConfig, clock: Clock, cli: bool, dir: string, batch: Log.Batch): seq<(string, Lines)> {
    if batch == [] then []
    else
      var t := batch[0].0;
      (if IsApart(cfg.apart, t)
       then [(ApartDestination(cfg, dir, clock, cli, t), [(t, Rendered(t, batch[0].1, cfg.json))])]
       else [])
        + ApartPlan(cfg, clock, cli, dir, batch[1..])
  }

  /** The lines a level adds to `$info`: its rendered messages, or nothing when it has none. */
  function OwnLines(json: bool, level: (string, seq<Log.Msg>)): Lines {
    if level.1 == [] then [] else [(level.0, Rendered(level.0, level.1, json))]
  }

  /**
   * The apart files of `save` as written, from `$info` = `info` on: each
   * apart level's file gets everything collected so far plus its own lines,
   * and only the levels that are not apart stay collected.
   */
  function AsWrittenPlan(cfg: FileConfig, clock: Clock, cli: bool, dir: string,
                         batch: Log.Batch, info: Lines): seq<(string, Lines)>
    decreases |batch|
  {
    if batch == [] then []
    else
      var t := batch[0].0;
      var info1 := info + OwnLines(cfg.json, batch[0]);
      if IsApart(cfg.apart, t) then
        [(ApartDestination(cfg, dir, clock, cli, t), info1)] + AsWrittenPlan(cfg, clock, cli, dir, batch[1..], info)
      else AsWrittenPlan(cfg, clock, cli, dir, batch[1..], info1)
  }

  /** The main file's write, if it happens. */
  function MainPlan(d: Driver, env: Env, batch: Log.Batch): seq<(string, Lines)> {
    var main := MainLines(d.config, batch);
    if main == [] then [] else [(Destination(d, env), main)]
  }

  /**
   * In both forms of the loop, `$info` ends as it started plus the lines of
   * every non-apart level that had messages: an apart level is unset right
   * after its own write, and an empty level never gets an entry.
   */
  lemma {:induction false} WalkLeavesMainLines(d: Driver, env: Env, sizes: map<string, nat>, dir: string,
                                              batch: Log.Batch, info: Lines, isolate: bool)
    requires Fresh(batch, info)
    ensures Walk(d, env, sizes, dir, batch, info, isolate).info == info + MainLines(d.config, batch)
    decreases |batch|
  {
    if batch == [] {
      assert info + [] == info;
    } else if IsApart(d.config.apart, batch[0].0) {
      FreshHead(batch, info);
      WalkLeavesMainLines(d, env, sizes, dir, batch[1..], info, isolate);
      ApartStep(d, env, sizes, dir, batch, info, isolate);
    } else {
      var info1 := Collect(batch, info, d.config.json);
      WalkLeavesMainLines(d, env, sizes, dir, batch[1..], info1, isolate);
      MainStep(d, env, sizes, dir, batch, info, isolate);
    }
  }

  /** An apart level leaves `$info` as it found it and adds nothing for the main file. */
  lemma ApartStep(d: Driver, env: Env, sizes: map<string, nat>, dir: string,
                  batch: Log.Batch, info: Lines, isolate: bool)
    requires batch != [] && Fresh(batch, info) && IsApart(d.config.apart, batch[0].0)
    requires Fresh(batch[1..], info)
    requires Walk(d, env, sizes, dir, batch[1..], info, isolate).info == info + MainLines(d.config, batch[1..])
    ensures Walk(d, env, sizes, dir, batch, info, isolate).info == info + MainLines(d.config, batch)
  {
    UnsetCollected(batch, info, d.config.json);
    assert Walk(d, env, sizes, dir, batch, info, isolate).info == Walk(d, env, sizes, dir, batch[1..], info, isolate).info;
    assert MainLines(d.config, batch) == MainLines(d.config, batch[1..]);
  }

  /** Any other level adds its rendered lines (if it has messages) to `$info` and to the main file. */
  lemma MainStep(d: Driver, env: Env, sizes: map<string, nat>, dir: string,
                 batch: Log.Batch, info: Lines, isolate: bool)
    requires batch != [] && Fresh(batch, info) && !IsApart(d.config.apart, batch[0].0)
    requires var info1 := Collect(batch, info, d.config.json);
      Walk(d, env, sizes, dir, batch[1..], info1, isolate).info == info1 + MainLines(d.config, batch[1..])
    ensures Walk(d, env, sizes, dir, batch, info, isolate).info == info + MainLines(d.config, batch)
  {
    var info1 := Collect(batch, info, d.config.json);
    var later := MainLines(d.config, batch[1..]);
    assert Walk(d, env, sizes, dir, batch, info, isolate) == Walk(d, env, sizes, dir, batch[1..], info1, isolate);
    if batch[0].1 != [] {
      var x := (batch[0].0, Rendered(batch[0].0, batch[0].1, d.config.json));
      assert info1 == info + [x];
      assert MainLines(d.config, batch) == [x] + later;
      Assoc(info, [x], later);
    } else {
      assert info1 == info;
      assert MainLines(d.config, batch) == [] + later == later;
    }
    assert Walk(d, env, sizes, dir, batch, info, isolate).info == info1 + later;
    assert info1 + later == info + MainLines(d.config, batch);
  }

  /** The corrected loop writes each apart level, alone, to its own file, in order. */
  lemma {:induction false} WalkFollowsApartPlan(d: Driver, env: Env, sizes: map<string, nat>, dir: string,
                                               batch: Log.Batch, info: Lines)
    requires Fresh(batch, info)
    ensures Appends(Walk(d, env, sizes, dir, batch, info, true).effects)
         == ApartPlan(d.config, env.clock, env.cli, dir, batch)
    decreases |batch|
  {
    if batch != [] {
      var t := batch[0].0;
      var info1 := Collect(batch, info, d.config.json);
      FreshHead(batch, info);
      if IsApart(d.config.apart, t) {
        CollectedLines(batch, info, d.config.json);
        var w := WriteFile(d, env, sizes, ApartMessage(info1, t, true), ApartDestination(d.config, dir, env.clock, env.cli, t));
        UnsetCollected(batch, info, d.config.json);
        WalkFollowsApartPlan(d, env, sizes, dir, batch[1..], info);
        AppendsConcat(w.effects, Walk(d, env, sizes, dir, batch[1..], info, true).effects);
      } else {
        WalkFollowsApartPlan(d, env, sizes, dir, batch[1..], info1);
      }
    }
  }

  /** The loop as written issues exactly the as-written apart plan. */
  lemma {:induction false} WalkFollowsAsWrittenPlan(d: Driver, env: Env, sizes: map<string, nat>, dir: string,
                                                   batch: Log.Batch, info: Lines)
    requires Fresh(batch, info)
    ensures Appends(Walk(d, env, sizes, dir, batch, info, false).effects)
         == AsWrittenPlan(d.config, env.clock, env.cli, dir, batch, info)
    decreases |batch|
  {
    if batch != [] {
      var t := batch[0].0;
      var info1 := Collect(batch, info, d.config.json);
      FreshHead(batch, info);
      assert info1 == info + OwnLines(d.config.json, batch[0]) by {
        assert info + [] == info;
      }
      if IsApart(d.config.apart, t) {
        var w := WriteFile(d, env, sizes, info1, ApartDestination(d.config, dir, env.clock, env.cli, t));
        WalkApart(d, env, sizes, dir, batch, info, false);
        WalkFollowsAsWrittenPlan(d, env, sizes, dir, batch[1..], info);
        AppendsConcat(w.effects, Walk(d, env, sizes, dir, batch[1..], info, false).effects);
      } else {
        WalkOther(d, env, sizes, dir, batch, info, false);
        WalkFollowsAsWrittenPlan(d, env, sizes, dir, batch[1..], info1);
      }
    }
  }

  /**
   * As written, the file of the apart level at position `k` receives the lines
   * of every earlier level that is not apart, then its own lines.
   */
  lemma {:induction false} AsWrittenCopiesEarlierLevel(cfg: FileConfig, clock: Clock, cli: bool, dir: string,
                                                      batch: Log.Batch, info: Lines, k: nat)
    requires k < |batch| && IsApart(cfg.apart, batch[k].0)
    ensures (ApartDestination(cfg, dir, clock, cli, batch[k].0),
             info + MainLines(cfg, batch[..k]) + OwnLines(cfg.json, batch[k]))
            in AsWrittenPlan(cfg, clock, cli, dir, batch, info)
    decreases k
  {
    if k == 0 {
      CopiesAtFront(cfg, clock, cli, dir, batch, info);
    } else if IsApart(cfg.apart, batch[0].0) {
      AsWrittenCopiesEarlierLevel(cfg, clock, cli, dir, batch[1..], info, k - 1);
      CopiesPastApart(cfg, clock, cli, dir, batch, info, k);
    } else {
      AsWrittenCopiesEarlierLevel(cfg, clock, cli, dir, batch[1..], info + OwnLines(cfg.json, batch[0]), k - 1);
      CopiesPastOther(cfg, clock, cli, dir, batch, info, k);
    }
  }

  /** The apart level in front gets `$info` as it stands plus its own lines. */
  lemma CopiesAtFront(cfg: FileConfig, clock: Clock, cli: bool, dir: string, batch: Log.Batch, info: Lines)
    requires batch != [] && IsApart(cfg.apart, batch[0].0)
    ensures (ApartDestination(cfg, dir, clock, cli, batch[0].0),
             info + MainLines(cfg, batch[..0]) + OwnLines(cfg.json, batch[0]))
            in AsWrittenPlan(cfg, clock, cli, dir, batch, info)
  {
    PlanStep(cfg, clock, cli, dir, batch, info);
    assert batch[..0] == [];
    assert MainLines(cfg, batch[..0]) == [];
    assert info + [] == info;
  }

  /** Past an apart level, `$info` is as it was: the later file's lines are unchanged. */
  lemma CopiesPastApart(cfg: FileConfig, clock: Clock, cli: bool, dir: string,
                        batch: Log.Batch, info: Lines, k: nat)
    requires 0 < k < |batch| && IsApart(cfg.apart, batch[k].0) && IsApart(cfg.apart, batch[0].0)
    requires (ApartDestination(cfg, dir, clock, cli, batch[1..][k - 1].0),
              info + MainLines(cfg, batch[1..][..k - 1]) + OwnLines(cfg.json, batch[1..][k - 1]))
             in AsWrittenPlan(cfg, clock, cli, dir, batch[1..], info)
    ensures (ApartDestination(cfg, dir, clock, cli, batch[k].0),
             info + MainLines(cfg, batch[..k]) + OwnLines(cfg.json, batch[k]))
            in AsWrittenPlan(cfg, clock, cli, dir, batch, info)
  {
    PlanStep(cfg, clock, cli, dir, batch, info);
    assert batch[1..][k - 1] == batch[k];
    MainLinesFront(cfg, batch, k);
    assert [] + MainLines(cfg, batch[1..][..k - 1]) == MainLines(cfg, batch[1..][..k - 1]);
  }

  /** Past any other level, `$info` has gained that level's lines. */
  lemma CopiesPastOther(cfg: FileConfig, clock: Clock, cli: bool, dir: string,
                        batch: Log.Batch, info: Lines, k: nat)
    requires 0 < k < |batch| && IsApart(cfg.apart, batch[k].0) && !IsApart(cfg.apart, batch[0].0)
    requires var own0 := OwnLines(cfg.json, batch[0]);
      (ApartDestination(cfg, dir, clock, cli, batch[1..][k - 1].0),
       (info + own0) + MainLines(cfg, batch[1..][..k - 1]) + OwnLines(cfg.json, batch[1..][k - 1]))
      in AsWrittenPlan(cfg, clock, cli, dir, batch[1..], info + own0)
    ensures (ApartDestination(cfg, dir, clock, cli, batch[k].0),
             info + MainLines(cfg, batch[..k]) + OwnLines(cfg.json, batch[k]))
            in AsWrittenPlan(cfg, clock, cli, dir, batch, info)
  {
    PlanStep(cfg, clock, cli, dir, batch, info);
    assert batch[1..][k - 1] == batch[k];
    MainLinesFront(cfg, batch, k);
    Assoc(info, OwnLines(cfg.json, batch[0]), MainLines(cfg, batch[1..][..k - 1]));
  }

  /** The main lines of the first `k` levels: the front level's own lines unless it is apart, then the rest. */
  lemma MainLinesFront(cfg: FileConfig, batch: Log.Batch, k: nat)
    requires 0 < k <= |batch|
    ensures MainLines(cfg, batch[..k])
         == (if IsApart(cfg.apart, batch[0].0) then [] else OwnLines(cfg.json, batch[0]))
            + MainLines(cfg, batch[1..][..k - 1])
  {
    assert batch[..k][0] == batch[0] && batch[..k][1..] == batch[1..][..k - 1];
  }

  /** One level of the as-written plan. */
  lemma PlanStep(cfg: FileConfig, clock: Clock, cli: bool, dir: string, batch: Log.Batch, info: Lines)
    requires batch != []
    ensures var t := batch[0].0;
      var info1 := info + OwnLines(cfg.json, batch[0]);
      AsWrittenPlan(cfg, clock, cli, dir, batch, info)
      == if IsApart(cfg.apart, t)
         then [(ApartDestination(cfg, dir, clock, cli, t), info1)] + AsWrittenPlan(cfg, clock, cli, dir, batch[1..], info)
         else AsWrittenPlan(cfg, clock, cli, dir, batch[1..], info1)
  {
  }

  /** After collecting, the level's entry holds exactly its rendered lines (none for an empty level). */
  lemma CollectedLines(batch: Log.Batch, info: Lines, json: bool)
    requires batch != [] && Fresh(batch, info)
    ensures LinesOf(Collect(batch, info, json), batch[0].0) == Rendered(batch[0].0, batch[0].1, json)
  {
    FreshHead(batch, info);
    var t := batch[0].0;
    if batch[0].1 != [] {
      var x := (t, Rendered(t, batch[0].1, json));
      GetAppend(info, x);
    } else {
      assert Get(info, t) == None;
    }
  }

  /** What the call returns and what reaches the main file are the same in both forms. */
  lemma MainWrite(d: Driver, env: Env, batch: Log.Batch, isolate: bool)
    requires Distinct(batch) && LogType !in Keys(batch)
    ensures var r := SaveWith(d, env, batch, isolate);
      && r.ok == (MainLines(d.config, batch) != [] ==> env.appendOk(Destination(d, env)))
      && Appends(r.effects)
         == Appends(Walk(d, env, SizesAfterPrune(d, env), Dirname(Destination(d, env)), batch, [], isolate).effects)
            + MainPlan(d, env, batch)
  {
    var sizes := SizesAfterPrune(d, env);
    var dest := Destination(d, env);
    var pre := Prelude(d, env);
    var w := Walk(d, env, sizes, Dirname(dest), batch, [], isolate);
    var r := SaveWith(d, env, batch, isolate);
    WalkLeavesMainLines(d, env, sizes, Dirname(dest), batch, [], isolate);
    assert w.info == MainLines(d.config, batch) by {
      assert [] + MainLines(d.config, batch) == MainLines(d.config, batch);
    }
    AppendsConcat(pre, w.effects);
    assert Appends(pre + w.effects) == Appends(w.effects);
    if w.info != [] {
      var m := WriteFile(d, env, sizes, w.info, dest);
      assert r == Outcome(pre + w.effects + m.effects, m.ok);
      AppendsConcat(pre + w.effects, m.effects);
      assert MainPlan(d, env, batch) == [(dest, w.info)];
    } else {
      assert r == Outcome(pre + w.effects, true);
      assert MainPlan(d, env, batch) == [];
      assert Appends(w.effects) + [] == Appends(w.effects);
    }
  }

  /**
   * The intended `save`: every apart level's lines go to its own file and
   * nowhere else, then the remaining levels go to the main file in one write;
   * the result is the main write's, and `true` when there was nothing for it.
   */
  function Save(d: Driver, env: Env, batch: Log.Batch): (r: Outcome)
    requires Distinct(batch) && LogType !in Keys(batch)
    ensures Prelude(d, env) <= r.effects
    ensures Appends(r.effects)
         == ApartPlan(d.config, env.clock, env.cli, Dirname(Destination(d, env)), batch) + MainPlan(d, env, batch)
    ensures r.ok == (MainLines(d.config, batch) != [] ==> env.appendOk(Destination(d, env)))
    ensures Unlinked(r.effects) == Pruning(d.config, env.listing)
    ensures DirsMade(r.effects) == MissingDir(Dirname(Destination(d, env)), env.dirs)
  {
    MainWrite(d, env, batch, true);
    WalkFollowsApartPlan(d, env, SizesAfterPrune(d, env), Dirname(Destination(d, env)), batch, []);
    SaveWith(d, env, batch, true)
  }

  /**
   * `save` as written: the main file and the result are as intended, but each
   * apart write carries the whole `$info` accumulated so far.
   */
  function SaveAsWritten(d: Driver, env: Env, batch: Log.Batch): (r: Outcome)
    requires Distinct(batch) && LogType !in Keys(batch)
    ensures Prelude(d, env) <= r.effects
    ensures Appends(r.effects)
         == AsWrittenPlan(d.config, env.clock, env.cli, Dirname(Destination(d, env)), batch, []) + MainPlan(d, env, batch)
    ensures r.ok == (MainLines(d.config, batch) != [] ==> env.appendOk(Destination(d, env)))
    ensures Unlinked(r.effects) == Pruning(d.config, env.listing)
    ensures DirsMade(r.effects) == MissingDir(Dirname(Destination(d, env)), env.dirs)
  {
    MainWrite(d, env, batch, false);
    WalkFollowsAsWrittenPlan(d, env, SizesAfterPrune(d, env), Dirname(Destination(d, env)), batch, []);
    SaveWith(d, env, batch, false)
  }

  /**
   * The input that shows the as-written apart write: level `a` (not apart)
   * then level `b` (apart). The lines of `a` land both in `b`'s file and in
   * the main file; the corrected form puts them in the main file only.
   */
  lemma DuplicatedIntoApart(d: Driver, env: Env, a: string, b: string, ma: Log.Msg, mb: Log.Msg)
    requires a != b && a != LogType && b != LogType
    requires d.config.apart == Listed([b])
    ensures var batch := [(a, [ma]), (b, [mb])];
      var la := (a, Rendered(a, [ma], d.config.json));
      var lb := (b, Rendered(b, [mb], d.config.json));
      var apartFile := ApartDestination(d.config, Dirname(Destination(d, env)), env.clock, env.cli, b);
      && Appends(SaveAsWritten(d, env, batch).effects) == [(apartFile, [la, lb]), (Destination(d, env), [la])]
      && Appends(Save(d, env, batch).effects) == [(apartFile, [lb]), (Destination(d, env), [la])]
  {
    AsWrittenTwoLevels(d, env, a, b, ma, mb);
    CorrectedTwoLevels(d, env, a, b, ma, mb);
  }

  lemma AsWrittenTwoLevels(d: Driver, env: Env, a: string, b: string, ma: Log.Msg, mb: Log.Msg)
    requires a != b && a != LogType && b != LogType
    requires d.config.apart == Listed([b])
    ensures var batch := [(a, [ma]), (b, [mb])];
      var la := (a, Rendered(a, [ma], d.config.json));
      var lb := (b, Rendered(b, [mb], d.config.json));
      var apartFile := ApartDestination(d.config, Dirname(Destination(d, env)), env.clock, env.cli, b);
      Appends(SaveAsWritten(d, env, batch).effects) == [(apartFile, [la, lb]), (Destination(d, env), [la])]
  {
    var batch := [(a, [ma]), (b, [mb])];
    var la := (a, Rendered(a, [ma], d.config.json));
    var dir := Dirname(Destination(d, env));
    var sizes := SizesAfterPrune(d, env);
    var lb := (b, Rendered(b, [mb], d.config.json));
    var apartFile := ApartDestination(d.config, dir, env.clock, env.cli, b);
    TwoLevels(d, env, a, b, ma, mb);
    AsWrittenTwoLevelWalk(d, env, sizes, dir, a, b, ma, mb);
    MainWrite(d, env, batch, false);
    assert SaveAsWritten(d, env, batch) == SaveWith(d, env, batch, false);
    assert MainPlan(d, env, batch) == [(Destination(d, env), [la])];
    PairOf(Appends(SaveWith(d, env, batch, false).effects),
           Appends(Walk(d, env, sizes, dir, batch, [], false).effects), MainPlan(d, env, batch),
           (apartFile, [la, lb]), (Destination(d, env), [la]));
  }

  lemma CorrectedTwoLevels(d: Driver, env: Env, a: string, b: string, ma: Log.Msg, mb: Log.Msg)
    requires a != b && a != LogType && b != LogType
    requires d.config.apart == Listed([b])
    ensures var batch := [(a, [ma]), (b, [mb])];
      var la := (a, Rendered(a, [ma], d.config.json));
      var lb := (b, Rendered(b, [mb], d.config.json));
      var apartFile := ApartDestination(d.config, Dirname(Destination(d, env)), env.clock, env.cli, b);
      Appends(Save(d, env, batch).effects) == [(apartFile, [lb]), (Destination(d, env), [la])]
  {
    var batch := [(a, [ma]), (b, [mb])];
    var la := (a, Rendered(a, [ma], d.config.json));
    var lb := (b, Rendered(b, [mb], d.config.json));
    var dir := Dirname(Destination(d, env));
    TwoLevels(d, env, a, b, ma, mb);
    assert MainPlan(d, env, batch) == [(Destination(d, env), [la])];
    PairOf(Appends(Save(d, env, batch).effects),
           ApartPlan(d.config, env.clock, env.cli, dir, batch), MainPlan(d, env, batch),
           (ApartDestination(d.config, dir, env.clock, env.cli, b), [lb]), (Destination(d, env), [la]));
  }

  lemma PairOf<T>(x: seq<T>, p: seq<T>, q: seq<T>, e: T, f: T)
    requires x == p + q && p == [e] && q == [f]
    ensures x == [e, f]
  {
  }

  /** The two-level batch: a valid PHP array whose main lines are `a`'s and whose apart plan is `b` alone. */
  lemma TwoLevels(d: Driver, env: Env, a: string, b: string, ma: Log.Msg, mb: Log.Msg)
    requires a != b && a != LogType && b != LogType
    requires d.config.apart == Listed([b])
    ensures var batch := [(a, [ma]), (b, [mb])];
      && Distinct(batch) && LogType !in Keys(batch)
      && MainLines(d.config, batch) == [(a, Rendered(a, [ma], d.config.json))]
      && ApartPlan(d.config, env.clock, env.cli, Dirname(Destination(d, env)), batch)
         == [(ApartDestination(d.config, Dirname(Destination(d, env)), env.clock, env.cli, b),
              [(b, Rendered(b, [mb], d.config.json))])]
  {
    var batch := [(a, [ma]), (b, [mb])];
    var cfg := d.config;
    var dir := Dirname(Destination(d, env));
    assert Keys(batch) == [a, b];
    assert !IsApart(cfg.apart, a) && IsApart(cfg.apart, b);
    var rest := batch[1..];
    assert rest == [(b, [mb])];
    assert rest[1..] == [];
    assert MainLines(cfg, rest) == [] + MainLines(cfg, []) == [];
    assert MainLines(cfg, batch) == [(a, Rendered(a, [ma], cfg.json))] + MainLines(cfg, rest);
    var entry := (ApartDestination(cfg, dir, env.clock, env.cli, b), [(b, Rendered(b, [mb], cfg.json))]);
    assert ApartPlan(cfg, env.clock, env.cli, dir, rest) == [entry] + ApartPlan(cfg, env.clock, env.cli, dir, []);
    assert ApartPlan(cfg, env.clock, env.cli, dir, batch) == [] + ApartPlan(cfg, env.clock, env.cli, dir, rest);
  }

  /** As written, the apart write of `b` also carries the lines of `a`, collected before it. */
  lemma AsWrittenTwoLevelWalk(d: Driver, env: Env, sizes: map<string, nat>, dir: string,
                               a: string, b: string, ma: Log.Msg, mb: Log.Msg)
    requires a != b && a != LogType && b != LogType
    requires d.config.apart == Listed([b])
    ensures var batch := [(a, [ma]), (b, [mb])];
      var la := (a, Rendered(a, [ma], d.config.json));
      var lb := (b, Rendered(b, [mb], d.config.json));
      Fresh(batch, []) &&
      Appends(Walk(d, env, sizes, dir, batch, [], false).effects)
      == [(ApartDestination(d.config, dir, env.clock, env.cli, b), [la, lb])]
  {
    var batch := [(a, [ma]), (b, [mb])];
    var json := d.config.json;
    var la := (a, Rendered(a, [ma], json));
    var lb := (b, Rendered(b, [mb], json));
    TwoLevels(d, env, a, b, ma, mb);
    var rest := batch[1..];
    assert rest == [(b, [mb])];
    assert !IsApart(d.config.apart, a) && IsApart(d.config.apart, b);
    CollectTwo(d, env, a, b, ma, mb);
    WalkOther(d, env, sizes, dir, batch, [], false);
    var info1 := Collect(batch, [], json);
    WalkApart(d, env, sizes, dir, rest, info1, false);
    var info2 := Collect(rest, info1, json);
    var apartFile := ApartDestination(d.config, dir, env.clock, env.cli, b);
    var w := WriteFile(d, env, sizes, info2, apartFile);
    var tail := Walk(d, env, sizes, dir, rest[1..], info1, false);
    assert rest[1..] == [];
    assert tail.effects == [];
    AppendsConcat(w.effects, tail.effects);
  }

  /** What the loop collects for the two levels: `a`'s lines, then `a`'s and `b`'s. */
  lemma CollectTwo(d: Driver, env: Env, a: string, b: string, ma: Log.Msg, mb: Log.Msg)
    requires a != b && a != LogType && b != LogType
    requires d.config.apart == Listed([b])
    ensures var batch := [(a, [ma]), (b, [mb])];
      var la := (a, Rendered(a, [ma], d.config.json));
      var lb := (b, Rendered(b, [mb], d.config.json));
      && Fresh(batch, [])
      && Collect(batch, [], d.config.json) == [la]
      && Collect(batch[1..], [la], d.config.json) == [la, lb]
  {
    var batch := [(a, [ma]), (b, [mb])];
    var la := (a, Rendered(a, [ma], d.config.json));
    var lb := (b, Rendered(b, [mb], d.config.json));
    TwoLevels(d, env, a, b, ma, mb);
    CollectFirst(batch, d.config.json);
    assert batch[1..] == [(b, [mb])];
    CollectNext(batch[1..], [la], d.config.json);
  }

  lemma CollectFirst(batch: Log.Batch, json: bool)
    requires batch != [] && Fresh(batch, []) && batch[0].1 != []
    ensures Collect(batch, [], json) == [(batch[0].0, Rendered(batch[0].0, batch[0].1, json))]
  {
    var x := (batch[0].0, Rendered(batch[0].0, batch[0].1, json));
    assert [] + [x] == [x];
  }

  lemma CollectNext(batch: Log.Batch, info: Lines, json: bool)
    requires batch != [] && Fresh(batch, info) && batch[0].1 != [] && |info| == 1
    ensures Collect(batch, info, json) == [info[0], (batch[0].0, Rendered(batch[0].0, batch[0].1, json))]
  {
    var x := (batch[0].0, Rendered(batch[0].0, batch[0].1, json));
    assert info == [info[0]];
    assert [info[0]] + [x] == [info[0], x];
  }

  /** One turn of the loop at a level that is not apart: collect it and go on. */
  lemma WalkOther(d: Driver, env: Env, sizes: map<string, nat>, dir: string,
                  batch: Log.Batch, info: Lines, isolate: bool)
    requires batch != [] && Fresh(batch, info) && !IsApart(d.config.apart, batch[0].0)
    ensures Walk(d, env, sizes, dir, batch, info, isolate)
         == Walk(d, env, sizes, dir, batch[1..], Collect(batch, info, d.config.json), isolate)
  {
  }

  /** One turn of the loop at an apart level: its write, then the rest from `info` as it was. */
  lemma WalkApart(d: Driver, env: Env, sizes: map<string, nat>, dir: string,
                  batch: Log.Batch, info: Lines, isolate: bool)
    requires batch != [] && Fresh(batch, info) && IsApart(d.config.apart, batch[0].0)
    ensures Fresh(batch[1..], info)
    ensures var t := batch[0].0;
      var info1 := Collect(batch, info, d.config.json);
      Walk(d, env, sizes, dir, batch, info, isolate).effects
      == WriteFile(d, env, sizes, ApartMessage(info1, t, isolate), ApartDestination(d.config, dir, env.clock, env.cli, t)).effects
         + Walk(d, env, sizes, dir, batch[1..], info, isolate).effects
  {
    FreshHead(batch, info);
    UnsetCollected(batch, info, d.config.json);
  }
}
