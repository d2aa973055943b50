/**
 * What the file driver puts into a log file: the per-level lines of `save`,
 * the record `write` assembles, its web (`parseLog`) and command-line
 * (`parseCliLog`) serialisations, and the `array2string` flattener.
 */
module FileFormat {
  import opened Php

  const CRLF := "\r\n"
  const Timestamp := "timestamp"
  const LogType := "log_type"

  /** The rendered lines of each level, as `save` accumulates them in `$info`. */
  type Lines = seq<(string, seq<string>)>

  /** The bytes handed to `error_log`: plain text, or `json_encode($record) . "\r\n"` (the encoder is opaque). */
  datatype Payload = Plain(text: string) | JsonLine(record: Fields)

  /** The fields `\lishaoen\log\Request` reports for the current request. */
  datatype Request = Request(
    ip: string, domain: string, host: string, verb: string, uri: string,
    params: Fields, header: Fields)

  // ---------------------------------------------------------------------
  // One line per message
  // ---------------------------------------------------------------------

  /** The text-mode prefix `[ type ] `. */
  function Tag(level: string): (t: string)
    ensures |t| == |level| + 5
  {
    "[ " + level + " ] "
  }

  /** One message of a level: `[ type ] msg` as text, the message itself in JSON mode. */
  function RenderLine(level: string, msg: string, json: bool): string {
    if json then msg else Tag(level) + msg
  }

  /** Reads a text-mode line back: the message behind the level's tag, if the line carries it. */
  function Untag(level: string, line: string): (r: Option<string>)
    ensures r.Some? ==> line == Tag(level) + r.value
  {
    var t := Tag(level);
    if t <= line then Some(line[|t|..]) else None
  }

  /** Text-mode rendering is reversible: the level's tag is the only thing added. */
  lemma RenderUntag(level: string, msg: string)
    ensures Untag(level, RenderLine(level, msg, false)) == Some(msg)
  {
    var line := RenderLine(level, msg, false);
    assert Tag(level) <= line;
    assert line[|Tag(level)|..] == msg;
  }

  /** Two different messages of one level never render to the same line, in either mode. */
  lemma RenderInjective(level: string, a: string, b: string, json: bool)
    requires RenderLine(level, a, json) == RenderLine(level, b, json)
    ensures a == b
  {
    if !json {
      RenderUntag(level, a);
      RenderUntag(level, b);
    }
  }

  /** Every message of a level, rendered in order. */
  function RenderAll(level: string, msgs: seq<string>, json: bool): (r: seq<string>)
    ensures |r| == |msgs|
    ensures forall i :: 0 <= i < |msgs| ==> r[i] == RenderLine(level, msgs[i], json)
  {
    if msgs == [] then [] else [RenderLine(level, msgs[0], json)] + RenderAll(level, msgs[1..], json)
  }

  // ---------------------------------------------------------------------
  // The record of one write
  // ---------------------------------------------------------------------

  /**
   * `log_type` as PHP builds it with `[]`: a list whose `i`-th entry has the
   * integer key `i` and holds the `i`-th level name.
   */
  function Indexed(names: seq<string>): (r: Fields)
    ensures |r| == |names| && Distinct(r)
    ensures forall i :: 0 <= i < |r| ==> DecimalValue(r[i].0) == i && r[i].1 == Scalar(names[i])
    ensures forall i :: 0 <= i < |names| ==> Get(r, NatToString(i)) == Some(Scalar(names[i]))
  {
    var r := seq(|names|, i requires 0 <= i < |names| => (NatToString(i), Scalar(names[i])));
    forall i, j | 0 <= i < j < |r| ensures r[i].0 != r[j].0 {
      if r[i].0 == r[j].0 {
        NatToStringInjective(i, j);
      }
    }
    forall i | 0 <= i < |names| ensures Get(r, NatToString(i)) == Some(Scalar(names[i])) {
      GetIndex(r, i);
    }
    r
  }

  /** A level's lines as one field: `implode("\r\n", $msg)`, under the level's own key. */
  function Body(message: Lines): (r: Fields)
    ensures |r| == |message| && Keys(r) == Keys(message)
    ensures forall k :: k in Keys(message) ==> Get(r, k) == Some(Scalar(Join(Get(message, k).value, CRLF)))
  {
    var r := seq(|message|, i requires 0 <= i < |message| => (message[i].0, Scalar(Join(message[i].1, CRLF))));
    assert Keys(r) == Keys(message);
    forall k | k in Keys(message) ensures Get(r, k) == Some(Scalar(Join(Get(message, k).value, CRLF))) {
      GetSameKeys(message, r, k);
    }
    r
  }

  /**
   * The loop of `write`: for each level, append its name to `log_type` and
   * store its joined lines under its own name.
   */
  function AddLevels(info: Fields, names: seq<string>, message: Lines): Fields
    requires LogType !in Keys(message)
    decreases |message|
  {
    if message == [] then info
    else
      var level := message[0].0;
      assert Keys(message)[0] == level;
      assert Keys(message[1..]) == Keys(message)[1..];
      var names' := names + [level];
      var withType := Set(info, LogType, Arr(Indexed(names')));
      AddLevels(Set(withType, level, Scalar(Join(message[0].1, CRLF))), names', message[1..])
  }

  /**
   * The record `write` builds: `timestamp` first, then `log_type`, then one
   * field per level. A level called "log_type" would collide with the list
   * and is outside the model.
   */
  function Assemble(message: Lines, stamp: string): Fields
    requires LogType !in Keys(message)
  {
    AddLevels([(Timestamp, Scalar(stamp))], [], message)
  }

  /** The closed form of a record: timestamp, then (for any levels) `log_type`, then the levels. */
  function Shape(stamp: string, message: Lines): Fields {
    if message == [] then [(Timestamp, Scalar(stamp))]
    else [(Timestamp, Scalar(stamp)), (LogType, Arr(Indexed(Keys(message))))] + Body(message)
  }

  /** Level names that are real `$log` keys and collide with neither reserved field. */
  predicate CleanLevels(message: Lines) {
    && Distinct(message)
    && Timestamp !in Keys(message)
    && LogType !in Keys(message)
  }

  /**
   * `write` produces exactly `timestamp`, `log_type` listing the levels in
   * iteration order, and each level's lines joined by CRLF, in that order.
   */
  lemma AssembleShape(message: Lines, stamp: string)
    requires CleanLevels(message)
    ensures Assemble(message, stamp) == Shape(stamp, message)
  {
    assert [] + message == message;
    AddLevelsShape(stamp, [], message);
  }

  lemma {:induction false} AddLevelsShape(stamp: string, done: Lines, rest: Lines)
    requires CleanLevels(done + rest)
    requires LogType !in Keys(rest)
    ensures AddLevels(Shape(stamp, done), Keys(done), rest) == Shape(stamp, done + rest)
    decreases |rest|
  {
    if rest == [] {
      assert done + rest == done;
    } else {
      var x := rest[0];
      var done' := done + [x];
      assert done + rest == done' + rest[1..];
      KeysConcat(done, rest);
      KeysConcat(done, [x]);
      assert Keys(rest) == [x.0] + Keys(rest[1..]);
      assert CleanLevels(done') by {
        assert done' == (done + rest)[..|done| + 1];
      }
      AddOneLevel(stamp, done, x);
      AddLevelsShape(stamp, done', rest[1..]);
    }
  }

  /** One turn of the loop of `write` extends the closed form by one level. */
  lemma AddOneLevel(stamp: string, done: Lines, x: (string, seq<string>))
    requires CleanLevels(done + [x])
    ensures Keys(done) + [x.0] == Keys(done + [x])
    ensures Set(Set(Shape(stamp, done), LogType, Arr(Indexed(Keys(done) + [x.0]))), x.0, Scalar(Join(x.1, CRLF)))
         == Shape(stamp, done + [x])
  {
    KeysConcat(done, [x]);
    assert Keys([x]) == [x.0];
    var names' := Keys(done) + [x.0];
    assert LogType !in Keys(done) by { LevelsPrefix(done, x); }
    WithType(stamp, done, names');
    NewLevelIsNew(stamp, done, x, names');
    SnocShape(stamp, done, x, names');
  }

  /** Adding a new level field at the end of the closed form gives the closed form of the longer record. */
  lemma SnocShape(stamp: string, done: Lines, x: (string, seq<string>), names: seq<string>)
    requires names == Keys(done + [x])
    requires x.0 !in Keys([(Timestamp, Scalar(stamp)), (LogType, Arr(Indexed(names)))] + Body(done))
    ensures Set([(Timestamp, Scalar(stamp)), (LogType, Arr(Indexed(names)))] + Body(done), x.0, Scalar(Join(x.1, CRLF)))
         == Shape(stamp, done + [x])
  {
    var front := [(Timestamp, Scalar(stamp)), (LogType, Arr(Indexed(names)))];
    BodySnoc(done, x);
    Assoc(front, Body(done), [(x.0, Scalar(Join(x.1, CRLF)))]);
  }

  /** The keys of a record prefix are clean as well. */
  lemma LevelsPrefix(done: Lines, x: (string, seq<string>))
    requires CleanLevels(done + [x])
    ensures LogType !in Keys(done) && x.0 !in Keys(done)
    ensures x.0 != Timestamp && x.0 != LogType
  {
    KeysConcat(done, [x]);
    DistinctSplit(done, [x]);
    assert Keys(done + [x])[|done|] == x.0;
    assert forall i :: 0 <= i < |done| ==> Keys(done)[i] == Keys(done + [x])[i];
  }

  /** Setting `log_type` on a closed form puts the new list second, before the level fields. */
  lemma WithType(stamp: string, done: Lines, names: seq<string>)
    requires LogType !in Keys(done)
    ensures Set(Shape(stamp, done), LogType, Arr(Indexed(names)))
         == [(Timestamp, Scalar(stamp)), (LogType, Arr(Indexed(names)))] + Body(done)
  {
    if done == [] {
      assert Keys(Shape(stamp, done)) == [Timestamp];
    } else {
      SetSecond(Timestamp, Scalar(stamp), LogType, Arr(Indexed(Keys(done))), Body(done), Arr(Indexed(names)));
    }
  }

  /** The level being added is not yet a key of the record. */
  lemma NewLevelIsNew(stamp: string, done: Lines, x: (string, seq<string>), names: seq<string>)
    requires CleanLevels(done + [x])
    ensures x.0 !in Keys([(Timestamp, Scalar(stamp)), (LogType, Arr(Indexed(names)))] + Body(done))
  {
    LevelsPrefix(done, x);
    var front := [(Timestamp, Scalar(stamp)), (LogType, Arr(Indexed(names)))];
    KeysConcat(front, Body(done));
    assert Keys(Body(done)) == Keys(done);
  }

  lemma BodySnoc(done: Lines, x: (string, seq<string>))
    ensures Body(done + [x]) == Body(done) + [(x.0, Scalar(Join(x.1, CRLF)))]
  {
  }

  lemma DistinctSplit<V>(a: seq<(string, V)>, b: seq<(string, V)>)
    requires Distinct(a + b) && b != []
    ensures b[0].0 !in Keys(a)
  {
    forall i | 0 <= i < |a| ensures Keys(a)[i] != b[0].0 {
      assert (a + b)[i] == a[i] && (a + b)[|a|] == b[0];
    }
  }

  /** Overwriting the second key of an array keeps every position. */
  lemma SetSecond<V>(k0: string, v0: V, k1: string, v1: V, rest: seq<(string, V)>, v: V)
    requires k0 != k1
    ensures Set([(k0, v0), (k1, v1)] + rest, k1, v) == [(k0, v0), (k1, v)] + rest
  {
    var a := [(k0, v0), (k1, v1)] + rest;
    assert a[1..] == [(k1, v1)] + rest;
  }

  // ---------------------------------------------------------------------
  // array2string
  // ---------------------------------------------------------------------

  /**
   * The pieces `array2string` collects from the entries of `v` from index `i`
   * on: an empty value contributes nothing, a nested array its own flattened
   * text (without its key), a leaf `key . kv . value`.
   */
  function Pieces(v: Value, i: nat, sp: string, kv: string): seq<string>
    requires v.Arr? && i <= |v.items|
    decreases v, |v.items| - i
  {
    if i == |v.items| then []
    else
      var x := v.items[i].1;
      var here :=
        if Empty(x) then []
        else if x.Arr? then [Join(Pieces(x, 0, sp, kv), sp)]
        else [v.items[i].0 + kv + x.s];
      here + Pieces(v, i + 1, sp, kv)
  }

  /** `array2string($array, $sp, $kv)`. */
  function Array2String(items: Fields, sp: string, kv: string): string {
    Join(Pieces(Arr(items), 0, sp, kv), sp)
  }

  /** An empty array gives the empty string. */
  lemma EmptyArrayIsEmptyString(sp: string, kv: string)
    ensures Array2String([], sp, kv) == ""
  {
  }

  /** The pieces of a concatenation are the pieces of each part. */
  lemma {:induction false} PiecesConcat(a: Fields, b: Fields, i: nat, sp: string, kv: string)
    requires i <= |a|
    ensures Pieces(Arr(a + b), i, sp, kv) == Pieces(Arr(a), i, sp, kv) + Pieces(Arr(b), 0, sp, kv)
    decreases |a| - i
  {
    if i == |a| {
      PiecesShift(a, b, 0, sp, kv);
    } else {
      assert (a + b)[i] == a[i];
      PiecesConcat(a, b, i + 1, sp, kv);
    }
  }

  lemma {:induction false} PiecesShift(a: Fields, b: Fields, j: nat, sp: string, kv: string)
    requires j <= |b|
    ensures Pieces(Arr(a + b), |a| + j, sp, kv) == Pieces(Arr(b), j, sp, kv)
    decreases |b| - j
  {
    if j < |b| {
      assert (a + b)[|a| + j] == b[j];
      PiecesShift(a, b, j + 1, sp, kv);
    }
  }

  /** `implode` over a concatenation puts one separator between the two non-empty halves. */
  lemma {:induction false} JoinConcat(p: seq<string>, q: seq<string>, sep: string)
    requires p != [] && q != []
    ensures Join(p + q, sep) == Join(p, sep) + sep + Join(q, sep)
    decreases |p|
  {
    if |p| == 1 {
      assert p + q == [p[0]] + q;
      assert (p + q)[1..] == q;
    } else {
      assert (p + q)[1..] == p[1..] + q;
      JoinConcat(p[1..], q, sep);
      assert Join(p + q, sep) == p[0] + sep + (Join(p[1..], sep) + sep + Join(q, sep));
      assert Join(p, sep) == p[0] + sep + Join(p[1..], sep);
      SeparatorAssoc(p[0], sep, Join(p[1..], sep), Join(q, sep));
    }
  }

  lemma SeparatorAssoc(x: string, sep: string, y: string, z: string)
    ensures x + sep + (y + sep + z) == (x + sep + y) + sep + z
  {
  }

  /**
   * The text of two arrays glued together is each one's text, separated by
   * `sp` when both produce something.
   */
  lemma Array2StringConcat(a: Fields, b: Fields, sp: string, kv: string)
    requires Pieces(Arr(a), 0, sp, kv) != [] && Pieces(Arr(b), 0, sp, kv) != []
    ensures Array2String(a + b, sp, kv) == Array2String(a, sp, kv) + sp + Array2String(b, sp, kv)
  {
    PiecesConcat(a, b, 0, sp, kv);
    JoinConcat(Pieces(Arr(a), 0, sp, kv), Pieces(Arr(b), 0, sp, kv), sp);
  }

  /** An entry whose value is empty (`""`, `"0"`, `[]`) leaves no trace. */
  lemma EmptyEntrySkipped(a: Fields, k: string, v: Value, b: Fields, sp: string, kv: string)
    requires Empty(v)
    ensures Array2String(a + [(k, v)] + b, sp, kv) == Array2String(a + b, sp, kv)
  {
    PiecesConcat(a + [(k, v)], b, 0, sp, kv);
    PiecesConcat(a, [(k, v)], 0, sp, kv);
    PiecesConcat(a, b, 0, sp, kv);
    assert Pieces(Arr([(k, v)]), 1, sp, kv) == [];
    assert Pieces(Arr([(k, v)]), 0, sp, kv) == [];
    assert Pieces(Arr(a), 0, sp, kv) + [] == Pieces(Arr(a), 0, sp, kv);
  }

  /** A non-empty leaf is one `key . kv . value` piece. */
  lemma LeafPiece(k: string, s: string, sp: string, kv: string)
    requires !FalsyString(s)
    ensures Array2String([(k, Scalar(s))], sp, kv) == k + kv + s
  {
    assert Pieces(Arr([(k, Scalar(s))]), 0, sp, kv) == [k + kv + s];
  }

  /**
   * The reference reading of `array2string`: every non-empty leaf at any
   * depth, in order, as `key . kv . value`; the keys of nested arrays vanish.
   */
  function Leaves(v: Value, i: nat, kv: string): seq<string>
    requires v.Arr? && i <= |v.items|
    decreases v, |v.items| - i
  {
    if i == |v.items| then []
    else
      var x := v.items[i].1;
      var here :=
        if Empty(x) then []
        else if x.Arr? then Leaves(x, 0, kv)
        else [v.items[i].0 + kv + x.s];
      here + Leaves(v, i + 1, kv)
  }

  /** Every non-empty nested array (at any depth) holds at least one non-empty leaf. */
  predicate Solid(v: Value, i: nat, kv: string)
    requires v.Arr? && i <= |v.items|
    decreases v, |v.items| - i
  {
    i < |v.items| ==>
      var x := v.items[i].1;
      && (x.Arr? && !Empty(x) ==> Leaves(x, 0, kv) != [] && Solid(x, 0, kv))
      && Solid(v, i + 1, kv)
  }

  /**
   * Nested arrays are flattened inline: when no nested array is hollow,
   * `array2string` is the separator-joined list of all non-empty leaves.
   */
  lemma {:induction false} FlattensToLeaves(v: Value, i: nat, sp: string, kv: string)
    requires v.Arr? && i <= |v.items|
    requires Solid(v, i, kv)
    ensures Join(Pieces(v, i, sp, kv), sp) == Join(Leaves(v, i, kv), sp)
    ensures Pieces(v, i, sp, kv) == [] <==> Leaves(v, i, kv) == []
    decreases v, |v.items| - i
  {
    if i < |v.items| {
      var x := v.items[i].1;
      FlattensToLeaves(v, i + 1, sp, kv);
      var restP := Pieces(v, i + 1, sp, kv);
      var restL := Leaves(v, i + 1, kv);
      if Empty(x) {
        assert Pieces(v, i, sp, kv) == restP;
        assert Leaves(v, i, kv) == restL;
      } else if x.Arr? {
        FlattensToLeaves(x, 0, sp, kv);
        var inner := Join(Pieces(x, 0, sp, kv), sp);
        var innerL := Leaves(x, 0, kv);
        assert Pieces(v, i, sp, kv) == [inner] + restP;
        assert Leaves(v, i, kv) == innerL + restL;
        if restP == [] {
          assert Join([inner] + restP, sp) == inner;
          assert innerL + restL == innerL;
        } else {
          JoinConcat([inner], restP, sp);
          JoinConcat(innerL, restL, sp);
        }
      } else {
        var leaf := v.items[i].0 + kv + x.s;
        assert Pieces(v, i, sp, kv) == [leaf] + restP;
        assert Leaves(v, i, kv) == [leaf] + restL;
        if restP != [] {
          JoinConcat([leaf], restP, sp);
          JoinConcat([leaf], restL, sp);
        }
      }
    }
  }

  // ---------------------------------------------------------------------
  // parseLog and parseCliLog
  // ---------------------------------------------------------------------

  /** `"{$x}"` for a value: a scalar's text, "Array" for an array, "" for a missing key. */
  function Interp(v: Option<Value>): string {
    if v.None? then "" else if v.value.Arr? then "Array" else v.value.s
  }

  /** The request fields `parseLog` puts in front of everything, in this order. */
  function RequestInfo(appGuid: string, appName: string, req: Request, stamp: string): Fields {
    [ ("timestamp", Scalar(stamp)),
      ("app_guid", Scalar(appGuid)),
      ("app_name", Scalar(appName)),
      ("ip", Scalar(req.ip)),
      ("domain", Scalar(req.domain)),
      ("host", Scalar(req.host)),
      ("method", Scalar(req.verb)),
      ("uri", Scalar(req.uri)),
      ("request", Arr(req.params)),
      ("header", Arr(req.header)) ]
  }

  /** `$request_info + $custominfo + $info`: the first array that has a key decides its value. */
  function Combined(head: Fields, custom: Fields, info: Fields): (r: Fields)
    ensures head <= r && Union(head, custom) <= r
    ensures forall k :: (Get(r, k) ==
      if Get(head, k).Some? then Get(head, k)
      else if Get(custom, k).Some? then Get(custom, k)
      else Get(info, k))
  {
    var first := Union(head, custom);
    var r := Union(first, info);
    forall k ensures Get(r, k) ==
      if Get(head, k).Some? then Get(head, k) else if Get(custom, k).Some? then Get(custom, k) else Get(info, k)
    {
      assert k in Keys(first) <==> k in Keys(head) || k in Keys(custom) by {
        assert Get(first, k).Some? <==> k in Keys(first);
      }
    }
    r
  }

  /** The separator line of a text record. */
  function Delimiter(stamp: string, ip: string, verb: string, host: string, uri: string): string {
    "---------------------------------  [" + stamp + "] " + ip + " " + verb + " " + host + " " + uri
      + "  ------------------------------"
  }

  /** PHP's canonical integer keys: "0", or an optional "-" and digits without a leading zero. */
  predicate IntKey(k: string) {
    var d := if k != [] && k[0] == '-' then k[1..] else k;
    && d != []
    && (forall i :: 0 <= i < |d| ==> '0' <= d[i] <= '9')
    && (d[0] != '0' || k == "0")
  }

  /** `array_unshift` renumbers the integer keys behind the new first entry, from `next` on. */
  function Renumber(a: Fields, next: nat): (r: Fields)
    ensures |r| == |a|
    decreases |a|
  {
    if a == [] then []
    else if IntKey(a[0].0) then [(NatToString(next), a[0].1)] + Renumber(a[1..], next + 1)
    else [a[0]] + Renumber(a[1..], next)
  }

  /** No key of the array is an integer key. */
  predicate NoIntKeys(a: Fields) {
    forall i :: 0 <= i < |a| ==> !IntKey(a[i].0)
  }

  /** Without integer keys there is nothing to renumber. */
  lemma {:induction false} RenumberNoInts(a: Fields, next: nat)
    requires NoIntKeys(a)
    ensures Renumber(a, next) == a
    decreases |a|
  {
    if a != [] {
      assert NoIntKeys(a[1..]) by {
        forall i | 0 <= i < |a[1..]| ensures !IntKey(a[1..][i].0) {
          assert a[1..][i] == a[i + 1];
        }
      }
      RenumberNoInts(a[1..], next);
    }
  }

  /** `array_unshift($info, $x)`: `$x` becomes entry 0. */
  function Unshift(a: Fields, x: Value): Fields {
    [("0", x)] + Renumber(a, 1)
  }

  /** `unset` of the five request fields the delimiter already shows. */
  function DropShown(a: Fields): (r: Fields) {
    Remove(Remove(Remove(Remove(Remove(a, "timestamp"), "ip"), "method"), "host"), "uri")
  }

  /**
   * The text form: the delimiter (from the merged request fields) becomes
   * entry 0, the five fields it shows are dropped, and the rest is flattened
   * one field per line between CRLFs.
   */
  function TextRecord(all: Fields): string {
    var delim := Delimiter(Interp(Get(all, "timestamp")), Interp(Get(all, "ip")), Interp(Get(all, "method")),
                           Interp(Get(all, "host")), Interp(Get(all, "uri")));
    CRLF + Array2String(DropShown(Unshift(all, Scalar(delim))), CRLF, ":") + CRLF
  }

  /** `parseLog`: the web-request serialisation of a record. */
  function ParseLog(appGuid: string, appName: string, req: Request, stamp: string,
                    custom: Fields, info: Fields, json: bool): Payload
  {
    var all := Combined(RequestInfo(appGuid, appName, req, stamp), custom, info);
    if json then JsonLine(all) else Plain(TextRecord(all))
  }

  /**
   * Request fields win over custom fields, and both win over the record: a
   * level called `ip`, `method` or `uri` is shadowed, in either format, and
   * only a key no earlier array has keeps the record's value.
   */
  lemma RequestFieldsWin(head: Fields, custom: Fields, info: Fields, k: string)
    ensures k in Keys(head) ==> Get(Combined(head, custom, info), k) == Get(head, k)
    ensures k !in Keys(head) && k in Keys(custom) ==> Get(Combined(head, custom, info), k) == Get(custom, k)
    ensures k !in Keys(head) && k !in Keys(custom) ==> Get(Combined(head, custom, info), k) == Get(info, k)
  {
  }

  /**
   * The five request fields the delimiter shows come from the request itself:
   * the stamp, then `ip`, `method`, `host` and `uri` as the request reports them.
   */
  lemma RequestStamp(appGuid: string, appName: string, req: Request, stamp: string)
    ensures Get(RequestInfo(appGuid, appName, req, stamp), "timestamp") == Some(Scalar(stamp))
  {
    HeadKey(RequestInfo(appGuid, appName, req, stamp), 0);
  }

  lemma RequestIp(appGuid: string, appName: string, req: Request, stamp: string)
    ensures Get(RequestInfo(appGuid, appName, req, stamp), "ip") == Some(Scalar(req.ip))
  {
    HeadKey(RequestInfo(appGuid, appName, req, stamp), 3);
  }

  lemma RequestHost(appGuid: string, appName: string, req: Request, stamp: string)
    ensures Get(RequestInfo(appGuid, appName, req, stamp), "host") == Some(Scalar(req.host))
  {
    HeadKey(RequestInfo(appGuid, appName, req, stamp), 5);
  }

  lemma RequestMethod(appGuid: string, appName: string, req: Request, stamp: string)
    ensures Get(RequestInfo(appGuid, appName, req, stamp), "method") == Some(Scalar(req.verb))
  {
    HeadKey(RequestInfo(appGuid, appName, req, stamp), 6);
  }

  lemma RequestUri(appGuid: string, appName: string, req: Request, stamp: string)
    ensures Get(RequestInfo(appGuid, appName, req, stamp), "uri") == Some(Scalar(req.uri))
  {
    HeadKey(RequestInfo(appGuid, appName, req, stamp), 7);
  }

  /** A key that no earlier entry has is found at its own index. */
  lemma HeadKey(head: Fields, i: nat)
    requires i < |head|
    requires forall j :: 0 <= j < i ==> head[j].0 != head[i].0
    ensures Get(head, head[i].0) == Some(head[i].1)
  {
    GetIndex(head, i);
  }

  /**
   * The text layout of `parseLog`: a CRLF, the entry `0:` holding the
   * delimiter with the request's own timestamp, ip, method, host and uri,
   * then the remaining fields, and a closing CRLF.
   */
  lemma ParseLogText(appGuid: string, appName: string, req: Request, stamp: string,
                     custom: Fields, info: Fields)
    requires NoIntKeys(Combined(RequestInfo(appGuid, appName, req, stamp), custom, info))
    ensures var rest := DropShown(Combined(RequestInfo(appGuid, appName, req, stamp), custom, info));
      ParseLog(appGuid, appName, req, stamp, custom, info, false)
      == Plain(CRLF + "0:" + Delimiter(stamp, req.ip, req.verb, req.host, req.uri)
               + (if Pieces(Arr(rest), 0, CRLF, ":") == [] then "" else CRLF + Array2String(rest, CRLF, ":"))
               + CRLF)
  {
    var head := RequestInfo(appGuid, appName, req, stamp);
    var all := Combined(head, custom, info);
    assert Interp(Get(all, "timestamp")) == stamp by { RequestStamp(appGuid, appName, req, stamp); }
    assert Interp(Get(all, "ip")) == req.ip by { RequestIp(appGuid, appName, req, stamp); }
    assert Interp(Get(all, "method")) == req.verb by { RequestMethod(appGuid, appName, req, stamp); }
    assert Interp(Get(all, "host")) == req.host by { RequestHost(appGuid, appName, req, stamp); }
    assert Interp(Get(all, "uri")) == req.uri by { RequestUri(appGuid, appName, req, stamp); }
    DelimiterLine(all, Delimiter(stamp, req.ip, req.verb, req.host, req.uri));
  }

  /** With the delimiter as entry `0` in front, the text opens with `0:` and the delimiter. */
  lemma DelimiterLine(all: Fields, delim: string)
    requires NoIntKeys(all)
    requires delim == Delimiter(Interp(Get(all, "timestamp")), Interp(Get(all, "ip")), Interp(Get(all, "method")),
                                Interp(Get(all, "host")), Interp(Get(all, "uri")))
    ensures var rest := DropShown(all);
      TextRecord(all)
      == CRLF + "0:" + delim
         + (if Pieces(Arr(rest), 0, CRLF, ":") == [] then "" else CRLF + Array2String(rest, CRLF, ":"))
         + CRLF
  {
    RenumberNoInts(all, 1);
    var x := ("0", Scalar(delim));
    assert Unshift(all, Scalar(delim)) == [x] + all;
    DropShownFront(x, all);
    DelimiterNotFalsy(Interp(Get(all, "timestamp")), Interp(Get(all, "ip")), Interp(Get(all, "method")),
                      Interp(Get(all, "host")), Interp(Get(all, "uri")));
    FrontEntryText("0", delim, DropShown(all), CRLF, ":");
    assert DropShown(Unshift(all, Scalar(delim))) == [x] + DropShown(all);
    assert TextRecord(all) == CRLF + Array2String([x] + DropShown(all), CRLF, ":") + CRLF;
    var tail := if Pieces(Arr(DropShown(all)), 0, CRLF, ":") == [] then "" else CRLF + Array2String(DropShown(all), CRLF, ":");
    assert "0" + ":" == "0:";
    RegroupFramed(CRLF, "0" + ":", delim, tail);
  }

  /** A framed text `a . (b . c . d) . a`, regrouped. */
  lemma RegroupFramed(a: string, b: string, c: string, d: string)
    ensures a + (b + c + d) + a == a + b + c + d + a
  {
  }

  /** The delimiter is never a value `empty()` rejects. */
  lemma DelimiterNotFalsy(stamp: string, ip: string, verb: string, host: string, uri: string)
    ensures !FalsyString(Delimiter(stamp, ip, verb, host, uri))
  {
    assert |Delimiter(stamp, ip, verb, host, uri)| > 1;
  }

  /** A non-empty leaf in front of an array adds its piece, and a separator when more follows. */
  lemma FrontEntryText(k: string, s: string, rest: Fields, sp: string, kv: string)
    requires !FalsyString(s)
    ensures Array2String([(k, Scalar(s))] + rest, sp, kv)
      == k + kv + s + (if Pieces(Arr(rest), 0, sp, kv) == [] then "" else sp + Array2String(rest, sp, kv))
  {
    var x := (k, Scalar(s));
    assert Pieces(Arr([x]), 1, sp, kv) == [];
    assert Pieces(Arr([x]), 0, sp, kv) == [k + kv + s];
    PiecesConcat([x], rest, 0, sp, kv);
    var p := Pieces(Arr(rest), 0, sp, kv);
    if p != [] {
      JoinConcat([k + kv + s], p, sp);
    } else {
      assert [k + kv + s] + p == [k + kv + s];
    }
  }

  /** Dropping the shown fields leaves an entry under another key in front. */
  lemma DropShownFront(x: (string, Value), a: Fields)
    requires x.0 != "timestamp" && x.0 != "ip" && x.0 != "method" && x.0 != "host" && x.0 != "uri"
    ensures DropShown([x] + a) == [x] + DropShown(a)
  {
    UnsetFront(x, a, "timestamp");
    UnsetFront(x, Remove(a, "timestamp"), "ip");
    UnsetFront(x, Remove(Remove(a, "timestamp"), "ip"), "method");
    UnsetFront(x, Remove(Remove(Remove(a, "timestamp"), "ip"), "method"), "host");
    UnsetFront(x, Remove(Remove(Remove(Remove(a, "timestamp"), "ip"), "method"), "host"), "uri");
  }

  lemma UnsetFront(x: (string, Value), a: Fields, k: string)
    requires x.0 != k
    ensures Remove([x] + a, k) == [x] + Remove(a, k)
  {
    assert ([x] + a)[1..] == a;
  }

  /** `parseCliLog`: `[timestamp]` and the remaining fields joined by CRLF, or the JSON record. */
  function ParseCliLog(info: Fields, json: bool): Payload {
    if json then JsonLine(info)
    else
      var now := Interp(Get(info, Timestamp));
      var rest := Remove(info, Timestamp);
      Plain("[" + now + "]" + Join(FieldTexts(rest), CRLF) + CRLF)
  }

  /** Each value as `implode` turns it into text: arrays become "Array". */
  function FieldTexts(a: Fields): (r: seq<string>)
    ensures |r| == |a|
    ensures forall i :: 0 <= i < |a| ==> r[i] == Interp(Some(a[i].1))
  {
    if a == [] then [] else [Interp(Some(a[0].1))] + FieldTexts(a[1..])
  }

  /**
   * On the command line a one-level record reads `[timestamp]`, then the
   * `log_type` list as PHP's "Array", then the level's lines.
   */
  lemma CliOneLevel(level: string, lines: seq<string>, stamp: string)
    requires level != Timestamp && level != LogType
    ensures var message := [(level, lines)];
      ParseCliLog(Assemble(message, stamp), false)
      == Plain("[" + stamp + "]" + "Array" + CRLF + Join(lines, CRLF) + CRLF)
  {
    var body := Join(lines, CRLF);
    var info := [(Timestamp, Scalar(stamp)), (LogType, Arr(Indexed([level]))), (level, Scalar(body))];
    OneLevelRecord(level, lines, stamp);
    CliRest(stamp, level, body);
    assert ParseCliLog(info, false) == Plain("[" + stamp + "]" + ("Array" + CRLF + body) + CRLF);
    RegroupCli("[" + stamp + "]", "Array", body);
  }

  /** The record of a single level: timestamp, the one-name `log_type` list, the joined lines. */
  lemma OneLevelRecord(level: string, lines: seq<string>, stamp: string)
    requires level != Timestamp && level != LogType
    ensures Assemble([(level, lines)], stamp)
      == [(Timestamp, Scalar(stamp)), (LogType, Arr(Indexed([level]))), (level, Scalar(Join(lines, CRLF)))]
  {
    var message := [(level, lines)];
    assert Keys(message) == [level];
    assert CleanLevels(message);
    AssembleShape(message, stamp);
    BodyOne(level, lines);
  }

  lemma BodyOne(level: string, lines: seq<string>)
    ensures Body([(level, lines)]) == [(level, Scalar(Join(lines, CRLF)))]
  {
    assert Body([(level, lines)])[0] == (level, Scalar(Join(lines, CRLF)));
  }

  /** Without its timestamp, a one-level record leaves the list and the lines, as "Array" and the text. */
  lemma CliRest(stamp: string, level: string, body: string)
    requires level != Timestamp
    ensures var info := [(Timestamp, Scalar(stamp)), (LogType, Arr(Indexed([level]))), (level, Scalar(body))];
      && Get(info, Timestamp) == Some(Scalar(stamp))
      && Join(FieldTexts(Remove(info, Timestamp)), CRLF) == "Array" + CRLF + body
  {
    var info := [(Timestamp, Scalar(stamp)), (LogType, Arr(Indexed([level]))), (level, Scalar(body))];
    var rest := info[1..];
    assert Remove(info, Timestamp) == rest by {
      assert rest[0].0 != Timestamp && rest[1].0 != Timestamp;
      assert Timestamp !in Keys(rest);
    }
    assert FieldTexts(rest) == ["Array", body];
  }

  lemma RegroupCli(lead: string, a: string, body: string)
    ensures lead + (a + CRLF + body) + CRLF == lead + a + CRLF + body + CRLF
  {
  }
}
