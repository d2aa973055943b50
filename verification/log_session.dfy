/**
 * Properties of whole sessions of the aggregator: sequences of calls on one
 * `Log` object, as a request or a command-line run makes them.
 */
module LogSession {
  import opened Php
  import opened Log

  /** One public call on the aggregator. */
  datatype Op =
    | DoRecord(msg: Msg, level: string, custom: Fields, context: map<string, string>)
    | DoSave
    | DoWrite(msg: Msg, level: string, force: bool)
    | DoClose
    | DoClear
    | DoKey(k: string)
    | DoInit(config: Config)

  /** The arguments a call can carry: a real level name and a PHP array of metadata. */
  predicate ValidOp(op: Op) {
    op.DoRecord? ==> op.level != LogCustom && Distinct(op.custom)
  }

  /** The state after one call. */
  function Step(lg: Logger, op: Op, cli: bool, sink: Sink): (r: Logger)
    requires WellFormed(lg.buffer) && ValidOp(op)
    ensures WellFormed(r.buffer)
  {
    match op
    case DoRecord(msg, level, custom, context) => Record(lg, msg, level, custom, context, cli, sink).logger
    case DoSave => Save(lg, sink).logger
    case DoWrite(_, _, _) => lg
    case DoClose => Close(lg)
    case DoClear => Clear(lg)
    case DoKey(k) => SetKey(lg, k)
    case DoInit(config) => Init(lg, config)
  }

  /** The state after a sequence of calls. */
  function Run(lg: Logger, ops: seq<Op>, cli: bool, sink: Sink): (r: Logger)
    requires WellFormed(lg.buffer)
    requires forall i :: 0 <= i < |ops| ==> ValidOp(ops[i])
    ensures WellFormed(r.buffer)
    decreases |ops|
  {
    if ops == [] then lg else Run(Step(lg, ops[0], cli, sink), ops[1..], cli, sink)
  }

  /** No call turns writing back on: `close`, and `init` with `close`, are final. */
  lemma {:induction false} ClosedStaysClosed(lg: Logger, ops: seq<Op>, cli: bool, sink: Sink)
    requires WellFormed(lg.buffer)
    requires forall i :: 0 <= i < |ops| ==> ValidOp(ops[i])
    requires !lg.allowWrite
    ensures !Run(lg, ops, cli, sink).allowWrite
    decreases |ops|
  {
    if ops != [] {
      ClosedStaysClosed(Step(lg, ops[0], cli, sink), ops[1..], cli, sink);
    }
  }

  /** After `close`, whatever follows, nothing is ever buffered again. */
  lemma {:induction false} NothingBufferedAfterClose(lg: Logger, ops: seq<Op>, cli: bool, sink: Sink)
    requires WellFormed(lg.buffer)
    requires forall i :: 0 <= i < |ops| ==> ValidOp(ops[i])
    ensures var r := Run(Close(lg), ops, cli, sink); !r.allowWrite && r.buffer == []
    decreases |ops|
  {
    if ops != [] {
      var next := Step(Close(lg), ops[0], cli, sink);
      assert next == Close(next);
      NothingBufferedAfterClose(next, ops[1..], cli, sink);
    }
  }

  /** One `record` call of a request. */
  datatype Entry = Entry(msg: Msg, level: string, custom: Fields, context: map<string, string>)

  predicate ValidEntries(es: seq<Entry>) {
    forall i :: 0 <= i < |es| ==> es[i].level != LogCustom && Distinct(es[i].custom)
  }

  /** One served `record` call, seen through its effect on the level entries. */
  function RecordEntry(lg: Logger, e: Entry, sink: Sink): (r: Logger)
    requires WellFormed(lg.buffer) && e.level != LogCustom && Distinct(e.custom)
    ensures WellFormed(r.buffer)
    ensures r.allowWrite == lg.allowWrite && r.key == lg.key && r.config == lg.config
    ensures lg.allowWrite ==> forall level :: level != LogCustom ==>
      && LevelMsgs(r.buffer, level)
         == LevelMsgs(lg.buffer, level) + (if e.level == level then [Interpolate(e.msg, e.context)] else [])
      && (level in Keys(r.buffer) <==> level in Keys(lg.buffer) || e.level == level)
  {
    var next := Record(lg, e.msg, e.level, e.custom, e.context, false, sink).logger;
    forall level | lg.allowWrite && level != LogCustom && level != e.level
      ensures LevelMsgs(next.buffer, level) == LevelMsgs(lg.buffer, level)
      ensures level in Keys(next.buffer) <==> level in Keys(lg.buffer)
    {
      assert Get(next.buffer, level) == Get(lg.buffer, level);
    }
    next
  }

  /** A served request's `record` calls, one after another. */
  function RecordAll(lg: Logger, es: seq<Entry>, sink: Sink): (r: Logger)
    requires WellFormed(lg.buffer)
    requires ValidEntries(es)
    ensures WellFormed(r.buffer)
    ensures r.allowWrite == lg.allowWrite && r.key == lg.key && r.config == lg.config
    decreases |es|
  {
    if es == [] then lg
    else RecordAll(RecordEntry(lg, es[0], sink), es[1..], sink)
  }

  /** The interpolated messages recorded under `level`, in call order. */
  function MsgsAt(es: seq<Entry>, level: string): seq<Msg> {
    if es == [] then []
    else (if es[0].level == level then [Interpolate(es[0].msg, es[0].context)] else []) + MsgsAt(es[1..], level)
  }

  /**
   * Buffering keeps insertion order within a level and never loses an entry:
   * each level ends with exactly the messages recorded under it, appended to
   * what was there.
   */
  lemma {:induction false} RecordAllAppends(lg: Logger, es: seq<Entry>, sink: Sink, level: string)
    requires WellFormed(lg.buffer) && ValidEntries(es)
    requires lg.allowWrite && level != LogCustom
    ensures LevelMsgs(RecordAll(lg, es, sink).buffer, level) == LevelMsgs(lg.buffer, level) + MsgsAt(es, level)
    ensures level in Keys(RecordAll(lg, es, sink).buffer) <==> level in Keys(lg.buffer) || MsgsAt(es, level) != []
    decreases |es|
  {
    if es == [] {
      assert LevelMsgs(lg.buffer, level) + [] == LevelMsgs(lg.buffer, level);
    } else {
      var e := es[0];
      var next := RecordEntry(lg, e, sink);
      assert ValidEntries(es[1..]) by {
        forall i | 0 <= i < |es[1..]| ensures es[1..][i].level != LogCustom && Distinct(es[1..][i].custom) {
          assert es[1..][i] == es[i + 1];
        }
      }
      RecordAllAppends(next, es[1..], sink, level);
      assert RecordAll(lg, es, sink) == RecordAll(next, es[1..], sink);
      var here := if e.level == level then [Interpolate(e.msg, e.context)] else [];
      var rest := MsgsAt(es[1..], level);
      assert MsgsAt(es, level) == here + rest;
      assert LevelMsgs(next.buffer, level) == LevelMsgs(lg.buffer, level) + here;
      Assoc(LevelMsgs(lg.buffer, level), here, rest);
    }
  }

  /**
   * A served request that records `es` and then saves hands the sink, for
   * every level, exactly the messages recorded under it in call order when
   * the level is allow-listed (every level, with an empty list), and nothing
   * of any other level.
   */
  lemma FlushDeliversRecorded(config: Config, es: seq<Entry>, sink: Sink)
    requires !config.close
    requires ValidEntries(es) && es != []
    ensures var r := Save(RecordAll(New(config), es, sink), sink);
      && r.dispatch.sent.Some?
      && forall level :: level != LogCustom ==>
           Get(r.dispatch.sent.value, level)
           == if Admitted(config.level, level) && MsgsAt(es, level) != [] then Some(MsgsAt(es, level)) else None
  {
    var after := RecordAll(New(config), es, sink);
    RecordedExactly(New(config), es, sink);
    SendsBuffered(after, es, sink);
  }

  /** Starting from an empty, served buffer, each level holds exactly what `es` recorded under it. */
  lemma RecordedExactly(lg: Logger, es: seq<Entry>, sink: Sink)
    requires WellFormed(lg.buffer) && ValidEntries(es) && es != []
    requires lg.allowWrite && lg.buffer == []
    ensures var after := RecordAll(lg, es, sink);
      && after.buffer != []
      && forall level :: level != LogCustom ==>
           && LevelMsgs(after.buffer, level) == MsgsAt(es, level)
           && (level in Keys(after.buffer) <==> MsgsAt(es, level) != [])
  {
    var after := RecordAll(lg, es, sink);
    RecordedSomething(lg, es, sink);
    forall level | level != LogCustom
      ensures LevelMsgs(after.buffer, level) == MsgsAt(es, level)
      ensures level in Keys(after.buffer) <==> MsgsAt(es, level) != []
    {
      RecordedLevel(lg, es, sink, level);
    }
  }

  lemma RecordedSomething(lg: Logger, es: seq<Entry>, sink: Sink)
    requires WellFormed(lg.buffer) && ValidEntries(es) && es != []
    requires lg.allowWrite
    ensures RecordAll(lg, es, sink).buffer != []
  {
    RecordAllAppends(lg, es, sink, es[0].level);
    assert MsgsAt(es, es[0].level) != [];
  }

  lemma RecordedLevel(lg: Logger, es: seq<Entry>, sink: Sink, level: string)
    requires WellFormed(lg.buffer) && ValidEntries(es)
    requires lg.allowWrite && lg.buffer == [] && level != LogCustom
    ensures LevelMsgs(RecordAll(lg, es, sink).buffer, level) == MsgsAt(es, level)
    ensures level in Keys(RecordAll(lg, es, sink).buffer) <==> MsgsAt(es, level) != []
  {
    RecordAllAppends(lg, es, sink, level);
    assert LevelMsgs(lg.buffer, level) == [];
  }

  /** A served, non-empty buffer holding exactly what `es` recorded is sent as such. */
  lemma SendsBuffered(lg: Logger, es: seq<Entry>, sink: Sink)
    requires WellFormed(lg.buffer) && lg.allowWrite && lg.buffer != [] && lg.key == None
    requires forall level :: level != LogCustom ==>
      && LevelMsgs(lg.buffer, level) == MsgsAt(es, level)
      && (level in Keys(lg.buffer) <==> MsgsAt(es, level) != [])
    ensures var r := Save(lg, sink);
      && r.dispatch.sent.Some?
      && forall level :: level != LogCustom ==>
           Get(r.dispatch.sent.value, level)
           == if Admitted(lg.config.level, level) && MsgsAt(es, level) != [] then Some(MsgsAt(es, level)) else None
  {
  }

  /**
   * A failed flush is retried with the same level entries: at-least-once for
   * the levels, though non-empty custom metadata did not survive the first try.
   */
  lemma RetryResendsLevels(lg: Logger, sink: Sink)
    requires WellFormed(lg.buffer)
    requires Save(lg, sink).dispatch.sent.Some? && !Save(lg, sink).dispatch.ok
    requires Save(lg, sink).logger.buffer != []
    ensures var again := Save(Save(lg, sink).logger, sink);
      && again.dispatch.sent.Some?
      && forall level :: level != LogCustom ==>
           Get(again.dispatch.sent.value, level) == Get(Save(lg, sink).dispatch.sent.value, level)
  {
    var first := Save(lg, sink);
    forall level | level != LogCustom
      ensures LevelMsgs(first.logger.buffer, level) == LevelMsgs(lg.buffer, level)
      ensures level in Keys(first.logger.buffer) <==> level in Keys(lg.buffer)
    {
      assert Get(first.logger.buffer, level) == Get(lg.buffer, level);
    }
  }

  /** A key missing from a non-empty `allow_key` blocks the flush and keeps everything. */
  lemma UnlistedKeyKeepsBuffer(lg: Logger, k: string, sink: Sink)
    requires WellFormed(lg.buffer)
    requires lg.allowWrite && lg.buffer != []
    requires !FalsyString(k) && lg.config.allowKey != [] && k !in lg.config.allowKey
    ensures Save(SetKey(lg, k), sink) == Flushed(SetKey(lg, k), Dispatch(None, false))
  {
  }

  /** `write` never looks at `allowWrite`: a closed logger still reaches the sink. */
  lemma ClosedLoggerStillWrites(lg: Logger, msg: Msg, level: string, force: bool, sink: Sink)
    requires Admitted(lg.config.level, level) || force
    ensures Write(Close(lg), msg, level, force, sink).sent == Some([(level, [msg])])
  {
  }
}
