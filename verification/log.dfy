/**
 * The request-scoped log aggregator of `src/Log.php`.
 *
 * A `Logger` is the state of one `Log` object: the buffer `$this->log`, the
 * `allowWrite` flag, the authorisation key and the configuration. Every public
 * operation is a function from the old state to the new one. The storage
 * driver is an oracle `sink` (the driver's `save` applied to a level map), and
 * whether PHP runs under the command line is the explicit flag `cli`.
 */
module Log {
  import opened Php
  import Strtr

  /** The buffer key under which custom metadata is merged. */
  const LogCustom: string := "log_custom"

  /** A log message: text, or any other value together with its `var_export` rendering. */
  datatype Msg = Text(text: string) | Structured(exported: string)

  /** One entry of `$this->log`: a level's messages, or the merged custom metadata. */
  datatype Slot = Lines(msgs: seq<Msg>) | Custom(fields: Fields)

  /** `$this->log`, in insertion order. */
  type Buffer = seq<(string, Slot)>

  /** What the driver's `save` receives: level name to messages. */
  type Batch = seq<(string, seq<Msg>)>

  /** The driver: it is handed a level map and reports success. */
  type Sink = Batch -> bool

  /** The options the aggregator reads: `level`, `allow_key` and `close`. */
  datatype Config = Config(level: seq<string>, allowKey: seq<string>, close: bool)

  datatype Logger = Logger(buffer: Buffer, allowWrite: bool, key: Option<string>, config: Config)

  /** What reached the sink (if anything) and the boolean the operation returned. */
  datatype Dispatch = Dispatch(sent: Option<Batch>, ok: bool)

  datatype Recorded = Recorded(logger: Logger, sent: Option<Batch>)

  datatype Flushed = Flushed(logger: Logger, dispatch: Dispatch)

  /**
   * The shape `record` keeps: keys are distinct, exactly the key `log_custom`
   * holds custom metadata, and that metadata has distinct keys.
   */
  ghost predicate WellFormed(b: Buffer) {
    && Distinct(b)
    && (forall k :: Get(b, k).Some? ==> (k == LogCustom <==> Get(b, k).value.Custom?))
    && (Get(b, LogCustom).Some? ==> Distinct(Get(b, LogCustom).value.fields))
  }

  function SlotMsgs(s: Slot): seq<Msg> {
    match s
    case Lines(m) => m
    case Custom(_) => []
  }

  /** The messages buffered under `level` so far. */
  function LevelMsgs(b: Buffer, level: string): seq<Msg> {
    var slot := Get(b, level);
    if slot.Some? && slot.value.Lines? then slot.value.msgs else []
  }

  /** The custom metadata merged so far (`[]` when the key is absent). */
  function CustomOf(b: Buffer): Fields {
    var slot := Get(b, LogCustom);
    if slot.Some? && slot.value.Custom? then slot.value.fields else []
  }

  /** A level passes the allow-list: an empty list admits every level. */
  predicate Admitted(levels: seq<string>, level: string) {
    levels == [] || level in levels
  }

  /** `new Log($config)`: writing starts enabled unless `close` is set. */
  function New(config: Config): (lg: Logger)
    ensures lg.buffer == [] && lg.key == None && lg.config == config
    ensures lg.allowWrite <==> !config.close
  {
    Logger([], !config.close, None, config)
  }

  /** `init($config)`: replaces the configuration and can only switch writing off. */
  function Init(lg: Logger, config: Config): (r: Logger)
    ensures r.config == config && r.buffer == lg.buffer && r.key == lg.key
    ensures r.allowWrite ==> lg.allowWrite
    ensures r.allowWrite <==> lg.allowWrite && !config.close
  {
    lg.(config := config, allowWrite := lg.allowWrite && !config.close)
  }

  /** `key($key)`: remembers the authorisation key for `check`. */
  function SetKey(lg: Logger, k: string): (r: Logger)
    ensures r.key == Some(k)
    ensures r.buffer == lg.buffer && r.allowWrite == lg.allowWrite && r.config == lg.config
  {
    lg.(key := Some(k))
  }

  /** The key is truthy in PHP: set, and neither "" nor "0". */
  predicate TruthyKey(key: Option<string>) {
    key.Some? && !FalsyString(key.value)
  }

  /**
   * `check($config)`: the write is refused exactly when a truthy key is set,
   * `allow_key` is non-empty, and the key is not listed.
   */
  function Check(key: Option<string>, config: Config): (ok: bool)
    ensures !ok <==> TruthyKey(key) && config.allowKey != [] && key.value !in config.allowKey
  {
    !(TruthyKey(key) && config.allowKey != [] && key.value !in config.allowKey)
  }

  /** The placeholder substitution of `record`: only text messages with a non-empty context change. */
  function Interpolate(msg: Msg, context: map<string, string>): (m: Msg)
    ensures !msg.Text? || |context| == 0 ==> m == msg
    ensures m.Text? <==> msg.Text?
  {
    if msg.Text? && |context| > 0 then Text(Strtr.Translate(msg.text, Strtr.Placeholders(context)))
    else msg
  }

  /**
   * A text message with a known `{name}` behind placeholder-free text reads
   * that text, then the name's value, then the rest translated on its own.
   */
  lemma InterpolateText(p: string, name: string, rest: string, context: map<string, string>)
    requires Strtr.PlainNames(context) && name in context
    requires '{' !in p
    ensures Interpolate(Text(p + Strtr.Brace(name) + rest), context)
         == Text(p + context[name] + Strtr.Translate(rest, Strtr.Placeholders(context)))
  {
    var table := Strtr.Placeholders(context);
    Strtr.PlaceholdersOpenWithBrace(context);
    Strtr.PlainPrefixCopied(p, Strtr.Brace(name) + rest, table);
    Strtr.SubstitutePlaceholder(name, rest, context);
    Assoc(p, Strtr.Brace(name), rest);
    Assoc(p, context[name], Strtr.Translate(rest, table));
  }

  /**
   * `write($msg, $type, $log_custom, $force)`: the immediate path. With an
   * empty allow-list every write is forced; otherwise an unforced write of an
   * unlisted level returns false without touching the sink. The `allowWrite`
   * flag is not consulted.
   */
  function Write(lg: Logger, msg: Msg, level: string, force: bool, sink: Sink): (d: Dispatch)
    ensures Admitted(lg.config.level, level) || force ==>
      d.sent == Some([(level, [msg])]) && d.ok == sink([(level, [msg])])
    ensures !(Admitted(lg.config.level, level) || force) ==> d == Dispatch(None, false)
  {
    if lg.config.level == [] || force || level in lg.config.level then
      var batch := [(level, [msg])];
      Dispatch(Some(batch), sink(batch))
    else
      Dispatch(None, false)
  }

  /**
   * `record($msg, $type, $log_custom, $context)`. Closed: nothing happens.
   * Under the command line: the interpolated message is written at once with
   * `force`, and the buffer is left alone. Otherwise: the message is appended
   * to its level and the custom metadata is merged, last write winning.
   */
  function Record(lg: Logger, msg: Msg, level: string, custom: Fields, context: map<string, string>,
                  cli: bool, sink: Sink): (r: Recorded)
    requires WellFormed(lg.buffer)
    requires level != LogCustom
    requires Distinct(custom)
    ensures WellFormed(r.logger.buffer)
    ensures r.logger.allowWrite == lg.allowWrite && r.logger.key == lg.key && r.logger.config == lg.config
    ensures !lg.allowWrite ==> r == Recorded(lg, None)
    ensures lg.allowWrite && cli ==>
      r.logger == lg && r.sent == Some([(level, [Interpolate(msg, context)])])
    ensures lg.allowWrite && !cli ==>
      && r.sent == None
      && LevelMsgs(r.logger.buffer, level) == LevelMsgs(lg.buffer, level) + [Interpolate(msg, context)]
      && (forall other :: other != level && other != LogCustom ==> Get(r.logger.buffer, other) == Get(lg.buffer, other))
      && (forall k :: Get(CustomOf(r.logger.buffer), k)
            == if k in Keys(custom) then Get(custom, k) else Get(CustomOf(lg.buffer), k))
      && LogCustom in Keys(r.logger.buffer)
  {
    if !lg.allowWrite then Recorded(lg, None)
    else
      var m := Interpolate(msg, context);
      if cli then
        Recorded(lg, Write(lg, m, level, true, sink).sent)
      else
        var b1 := Set(lg.buffer, level, Lines(LevelMsgs(lg.buffer, level) + [m]));
        var merged := CustomOf(b1);
        var fields := if merged != [] then Merge(merged, custom) else custom;
        var b2 := Set(b1, LogCustom, Custom(fields));
        assert CustomOf(b1) == CustomOf(lg.buffer);
        assert Distinct(fields) by {
          assert Distinct(merged);
        }
        StoredWellFormed(lg.buffer, level, LevelMsgs(lg.buffer, level) + [m], fields);
        Recorded(lg.(buffer := b2), None)
  }

  /** Storing a level's messages and then the custom metadata keeps the buffer well formed. */
  lemma StoredWellFormed(b: Buffer, level: string, msgs: seq<Msg>, fields: Fields)
    requires WellFormed(b) && level != LogCustom && Distinct(fields)
    ensures WellFormed(Set(Set(b, level, Lines(msgs)), LogCustom, Custom(fields)))
  {
    var b1 := Set(b, level, Lines(msgs));
    assert forall k :: Get(b1, k).Some? ==> (k == LogCustom <==> Get(b1, k).value.Custom?);
  }

  /**
   * `record("user {u} id {id}", …)` with both names in the context: what is
   * buffered (or written at once on the command line) is the template with
   * each placeholder replaced by its value.
   */
  lemma RecordSubstitutes(lg: Logger, p1: string, n1: string, p2: string, n2: string, level: string,
                          custom: Fields, context: map<string, string>, cli: bool, sink: Sink)
    requires WellFormed(lg.buffer) && level != LogCustom && Distinct(custom) && lg.allowWrite
    requires Strtr.PlainNames(context) && n1 in context && n2 in context
    requires '{' !in p1 && '{' !in p2
    ensures var r := Record(lg, Text(p1 + Strtr.Brace(n1) + p2 + Strtr.Brace(n2)), level, custom, context, cli, sink);
      var out := Text(p1 + context[n1] + p2 + context[n2]);
      && (cli ==> r.sent == Some([(level, [out])]))
      && (!cli ==> LevelMsgs(r.logger.buffer, level) == LevelMsgs(lg.buffer, level) + [out])
  {
    Strtr.TwoPlaceholders(p1, n1, p2, n2, context);
    assert n1 in context;
  }

  /** `unset($this->log['log_custom'])` when that metadata is non-empty; otherwise the buffer as it is. */
  function Kept(b: Buffer): (k: Buffer)
    requires WellFormed(b)
    ensures WellFormed(k)
    ensures forall level :: level != LogCustom ==> Get(k, level) == Get(b, level)
    ensures CustomOf(b) != [] ==> LogCustom !in Keys(k)
    ensures CustomOf(b) == [] ==> k == b
  {
    if CustomOf(b) != [] then Remove(b, LogCustom) else b
  }

  /** The whole buffer as a level map (`$log = $this->log`). */
  function AsBatch(b: Buffer): (r: Batch)
    ensures Keys(r) == Keys(b)
    ensures forall k :: Get(r, k) == (if k in Keys(b) then Some(SlotMsgs(Get(b, k).value)) else None)
  {
    if b == [] then [] else [(b[0].0, SlotMsgs(b[0].1))] + AsBatch(b[1..])
  }

  /**
   * The names of `levels` that occur in `present`, in list order, each once:
   * a name already in `seen`, or repeated later in the list, is skipped.
   */
  function ListedOrder(levels: seq<string>, present: seq<string>, seen: seq<string>): seq<string>
    decreases |levels|
  {
    if levels == [] then []
    else if levels[0] in present && levels[0] !in seen then
      [levels[0]] + ListedOrder(levels[1..], present, seen + [levels[0]])
    else ListedOrder(levels[1..], present, seen)
  }

  /**
   * The `foreach ($this->config['level'] ...)` projection onto the allow-list,
   * starting from `acc`: the buffered listed levels are added after the keys
   * of `acc`, in allow-list order.
   */
  function Project(b: Buffer, levels: seq<string>, acc: Batch): (r: Batch)
    ensures forall k :: (Get(r, k)
      == if k in levels && k in Keys(b) then Some(SlotMsgs(Get(b, k).value)) else Get(acc, k))
    ensures Keys(r) == Keys(acc) + ListedOrder(levels, Keys(b), Keys(acc))
    decreases |levels|
  {
    if levels == [] then
      assert Keys(acc) + [] == Keys(acc);
      acc
    else
      var l := levels[0];
      var v := if l in Keys(b) then SlotMsgs(Get(b, l).value) else [];
      var acc' := if l in Keys(b) then Set(acc, l, v) else acc;
      OrderStep(acc, levels, Keys(b), v);
      Project(b, levels[1..], acc')
  }

  /** One turn of the projection loop keeps the promised key order. */
  lemma OrderStep(acc: Batch, levels: seq<string>, present: seq<string>, v: seq<Msg>)
    requires levels != []
    ensures var acc' := if levels[0] in present then Set(acc, levels[0], v) else acc;
      Keys(acc') + ListedOrder(levels[1..], present, Keys(acc'))
      == Keys(acc) + ListedOrder(levels, present, Keys(acc))
  {
    var l := levels[0];
    if l in present && l !in Keys(acc) {
      var acc' := Set(acc, l, v);
      KeysConcat(acc, [(l, v)]);
      assert Keys(acc') == Keys(acc) + [l];
      Assoc(Keys(acc), [l], ListedOrder(levels[1..], present, Keys(acc')));
    }
  }

  /** The level map `save` hands to the driver. */
  function Selected(b: Buffer, levels: seq<string>): (r: Batch)
    requires WellFormed(b)
    ensures forall k :: (Get(r, k)
      == if Admitted(levels, k) && k in Keys(Kept(b)) then Some(SlotMsgs(Get(Kept(b), k).value)) else None)
    ensures levels == [] ==> Keys(r) == Keys(Kept(b))
    ensures levels != [] ==> Keys(r) == ListedOrder(levels, Keys(Kept(b)), [])
  {
    if levels == [] then AsBatch(Kept(b))
    else
      var r := Project(Kept(b), levels, []);
      assert [] + ListedOrder(levels, Keys(Kept(b)), []) == ListedOrder(levels, Keys(Kept(b)), []);
      r
  }

  /**
   * `save()`. Nothing buffered or writing closed: true, and the sink is not
   * called. Key refused: false, state untouched. Otherwise the allow-listed
   * levels go to the sink; success empties the buffer, failure keeps the level
   * entries but the non-empty custom metadata is already gone.
   */
  function Save(lg: Logger, sink: Sink): (r: Flushed)
    requires WellFormed(lg.buffer)
    ensures WellFormed(r.logger.buffer)
    ensures r.logger.allowWrite == lg.allowWrite && r.logger.key == lg.key && r.logger.config == lg.config
    ensures lg.buffer == [] || !lg.allowWrite ==> r == Flushed(lg, Dispatch(None, true))
    ensures lg.buffer != [] && lg.allowWrite && !Check(lg.key, lg.config) ==> r == Flushed(lg, Dispatch(None, false))
    ensures r.dispatch.sent.Some? <==> lg.buffer != [] && lg.allowWrite && Check(lg.key, lg.config)
    ensures r.dispatch.sent.Some? ==>
      var batch := r.dispatch.sent.value;
      && (forall level :: level != LogCustom ==>
            Get(batch, level) == if Admitted(lg.config.level, level) && level in Keys(lg.buffer)
                                 then Some(LevelMsgs(lg.buffer, level)) else None)
      && (Get(batch, LogCustom)
            == if Admitted(lg.config.level, LogCustom) && LogCustom in Keys(lg.buffer) && CustomOf(lg.buffer) == []
               then Some([]) else None)
      && r.dispatch.ok == sink(batch)
      && (r.dispatch.ok ==> r.logger.buffer == [])
      && (!r.dispatch.ok ==>
            && (forall level :: level != LogCustom ==> Get(r.logger.buffer, level) == Get(lg.buffer, level))
            && (CustomOf(lg.buffer) != [] ==> LogCustom !in Keys(r.logger.buffer)))
  {
    if lg.buffer == [] || !lg.allowWrite then Flushed(lg, Dispatch(None, true))
    else if !Check(lg.key, lg.config) then Flushed(lg, Dispatch(None, false))
    else
      var kept := Kept(lg.buffer);
      var batch := Selected(lg.buffer, lg.config.level);
      var ok := sink(batch);
      assert forall level :: level != LogCustom && level in Keys(lg.buffer) ==>
        SlotMsgs(Get(kept, level).value) == LevelMsgs(lg.buffer, level);
      Flushed(lg.(buffer := if ok then [] else kept), Dispatch(Some(batch), ok))
  }

  /** `close()`: writing is switched off for good and the buffer is dropped. */
  function Close(lg: Logger): (r: Logger)
    ensures !r.allowWrite && r.buffer == []
    ensures r.key == lg.key && r.config == lg.config
  {
    lg.(allowWrite := false, buffer := [])
  }

  /** `clear()`: the buffer is dropped, writing stays as it was. */
  function Clear(lg: Logger): (r: Logger)
    ensures r.buffer == [] && r.allowWrite == lg.allowWrite
    ensures r.key == lg.key && r.config == lg.config
  {
    lg.(buffer := [])
  }

  /** The level-named wrappers of `Log`. */
  datatype NamedLevel = Emergency | Alert | Critical | Error | Warning | Notice | Info | Debug | Sql {
    /** The method name, which is the level it records under. */
    function Name(): string {
      match this
      case Emergency => "emergency"
      case Alert => "alert"
      case Critical => "critical"
      case Error => "error"
      case Warning => "warning"
      case Notice => "notice"
      case Info => "info"
      case Debug => "debug"
      case Sql => "sql"
    }
  }

  /** `log($level, $message, $log_custom, $context)`: `record` with the arguments reordered. */
  function LogAt(lg: Logger, level: string, msg: Msg, custom: Fields, context: map<string, string>,
                 cli: bool, sink: Sink): (r: Recorded)
    requires WellFormed(lg.buffer)
    requires level != LogCustom
    requires Distinct(custom)
    ensures !lg.allowWrite ==> r == Recorded(lg, None)
    ensures lg.allowWrite && cli ==> r.logger == lg && r.sent == Some([(level, [Interpolate(msg, context)])])
    ensures lg.allowWrite && !cli ==>
      && r.sent == None
      && LevelMsgs(r.logger.buffer, level) == LevelMsgs(lg.buffer, level) + [Interpolate(msg, context)]
      && forall other :: other != level && other != LogCustom ==> Get(r.logger.buffer, other) == Get(lg.buffer, other)
  {
    Record(lg, msg, level, custom, context, cli, sink)
  }

  /** `emergency(...)` ... `sql(...)`: `log` under the method's own name. */
  function LogNamed(lg: Logger, which: NamedLevel, msg: Msg, custom: Fields, context: map<string, string>,
                    cli: bool, sink: Sink): (r: Recorded)
    requires WellFormed(lg.buffer)
    requires Distinct(custom)
    ensures !lg.allowWrite ==> r == Recorded(lg, None)
    ensures lg.allowWrite && cli ==> r.logger == lg && r.sent == Some([(which.Name(), [Interpolate(msg, context)])])
    ensures lg.allowWrite && !cli ==>
      && r.sent == None
      && LevelMsgs(r.logger.buffer, which.Name()) == LevelMsgs(lg.buffer, which.Name()) + [Interpolate(msg, context)]
      && forall other: NamedLevel :: other != which ==> Get(r.logger.buffer, other.Name()) == Get(lg.buffer, other.Name())
  {
    NamesApart(which);
    LogAt(lg, which.Name(), msg, custom, context, cli, sink)
  }

  /** Each wrapper records under its own level: the names differ from each other and from `log_custom`. */
  lemma NamesApart(which: NamedLevel)
    ensures which.Name() != LogCustom
    ensures forall other: NamedLevel :: other != which ==> other.Name() != which.Name()
  {
  }
}
