/** http_parser_execute as the loop over the caller's buffer: marks are positions in the
    buffer, bodies are skipped in bulk, callbacks may fail or pause, and the result is that of the
    byte-wise reference. */
module HttpExecute {
  import opened HttpTypes
  import opened HttpStep
  import opened HttpRun
  import opened HttpSegments
  import opened HttpBody
  import opened HttpCallbacks

  /** The four mark pointers, -1 for NULL. */
  datatype Marks = Marks(field: int, value: int, url: int, body: int)

  const NO_MARKS := Marks(-1, -1, -1, -1)

  function Get(m: Marks, k: Kind): int {
    match k
    case Field => m.field
    case Value => m.value
    case Url => m.url
    case Body => m.body
  }

  function Set(m: Marks, k: Kind, at: int): Marks {
    match k
    case Field => m.(field := at)
    case Value => m.(value := at)
    case Url => m.(url := at)
    case Body => m.(body := at)
  }

  /** The mark that is set again at the start of a buffer. */
  function StartMarks(s: State): Marks {
    match MarkOf(s)
    case Has(Field) => Set(NO_MARKS, Field, 0)
    case Has(Value) => Set(NO_MARKS, Value, 0)
    case Has(Url) => Set(NO_MARKS, Url, 0)
    case _ => NO_MARKS
  }

  /** The marks at position i say what `open` says: none is set, or one, where its bytes begin. */
  ghost predicate Marked(m: Marks, open: Open, data: seq<byte>, i: int) {
    0 <= i <= |data| &&
    if open.Closed? then m == NO_MARKS
    else 0 <= Get(m, open.kind) <= i && m == Set(NO_MARKS, open.kind, Get(m, open.kind)) && open.bytes == data[Get(m, open.kind)..i]
  }

  ghost predicate MarksOnlyOnce(p: Parser, o: Out) {
    o.act.Mark? || o.act.Touch? ==> MarkOf(p.state) == NoMark
  }

  lemma ValueMarks(p: Parser, ch: byte)
    requires GroupOf(p.state).GValue?
    ensures MarksOnlyOnce(p, ValueStep(p, ch))
  {
  }

  lemma UrlMarks(p: Parser, ch: byte)
    requires GroupOf(p.state).GUrl?
    ensures MarksOnlyOnce(p, UrlStep(p, ch))
  {
  }

  lemma FieldMarks(p: Parser, ch: byte)
    requires GroupOf(p.state).GField?
    ensures MarksOnlyOnce(p, FieldStep(p, ch))
  {
  }

  lemma OtherMarks(hc: Decide, p: Parser, ch: byte)
    requires !Reads(p.state) && !GroupOf(p.state).GValue? && !GroupOf(p.state).GUrl? && !GroupOf(p.state).GField?
    ensures MarksOnlyOnce(p, Pass(hc, p, ch))
  {
    hide ValueStep, UrlStep, FieldStep;
  }

  lemma PassMarks(hc: Decide, p: Parser, ch: byte)
    requires !Reads(p.state)
    ensures MarksOnlyOnce(p, Pass(hc, p, ch))
  {
    hide ValueStep, UrlStep, FieldStep, MarksOnlyOnce, StartStep, MethodStep, ChunkStep, StatusLineStep,
      RequestLineStep, HeadersStep;
    match GroupOf(p.state)
    case GValue => ValueMarks(p, ch);
    case GUrl => UrlMarks(p, ch);
    case GField => FieldMarks(p, ch);
    case _ => OtherMarks(hc, p, ch);
  }

  class HttpParser {
    var it: Parser
    var log: seq<Event>

    constructor (t: MessageType)
      ensures it == Init(t) && log == []
    {
      it := Init(t);
      log := [];
    }

    /** A callback: its assert holds, and `ok` says that neither it has failed nor the parser is paused. */
    method Callback(cb: Listener, e: Event) returns (ok: bool)
      requires it.errno.Ok?
      modifies this
      ensures log == old(log) + [e] && it == Told(old(it), e, cb(old(it), e)) && (ok <==> cb(old(it), e) == Fine)
    {
      log := log + [e];
      it := Told(it, e, cb(it, e));
      ok := it.errno.Ok?;
    }

    /** CALLBACK_DATA: the bytes from the mark up to `end`, if the mark is set. */
    method CallbackData(cb: Listener, m: Marks, k: Kind, data: seq<byte>, end: nat) returns (m': Marks, ok: bool)
      requires it.errno.Ok? && (Get(m, k) == -1 || 0 <= Get(m, k) <= end <= |data|)
      modifies this
      ensures Get(m, k) == -1 ==> ok && m' == m && log == old(log) && it == old(it)
      ensures Get(m, k) != -1 ==>
        var e := Data(k, data[Get(m, k)..end]);
        && log == old(log) + [e] && it == Told(old(it), e, cb(old(it), e)) && (ok <==> cb(old(it), e) == Fine)
        && (ok ==> m' == Set(m, k, -1))
    {
      m', ok := m, true;
      if Get(m, k) != -1 {
        ok := Callback(cb, Data(k, data[Get(m, k)..end]));
        if ok {
          m' := Set(m, k, -1);
        }
      }
    }

    /** MARK, CALLBACK_DATA and CALLBACK_NOTIFY at position i. */
    method Do(cb: Listener, a: Act, m: Marks, ghost open: Open, data: seq<byte>, i: nat) returns (m': Marks, ok: bool)
      requires it.errno.Ok? && Marked(m, open, data, i) && (a.Mark? || a.Touch? ==> open.Closed?)
      modifies this
      ensures var d := Perform(a, Conf(old(it), open, old(log)));
        && log == d.out && (ok <==> ReplyTo(cb, old(log), d) == Fine)
        && it == (if ok then old(it) else Broken(cb, d).p) && (ok ==> Marked(m', d.open, data, i))
    {
      m', ok := m, true;
      assert data[i..i] == [];
      match a
      case Quiet =>
      case Mark(k) =>
        m' := Set(m, k, i);
      case Flush(k) =>
        m', ok := CallbackData(cb, m, k, data, i);
      case Touch(k) =>
        m', ok := CallbackData(cb, Set(m, k, i), k, data, i);
      case Notify(e) =>
        ok := Callback(cb, e);
    }

    /** The switch with goto reexecute_byte, in the states other than the reading of a body. */
    method SwitchByte(hc: Decide, cb: Listener, m: Marks, ghost open: Open, data: seq<byte>, i: nat)
      returns (m': Marks, ghost open': Open, ctl: Control)
      requires i < |data| && Marked(m, open, data, i) && !Reads(it.state) && Sound(it) && Fits(it.state, open)
      modifies this
      ensures SwitchCb(hc, cb, Conf(old(it), open, old(log)), data[i]) == (Conf(it, open', log), ctl)
      ensures ctl.Next? ==> Marked(m', open', data, i)
    {
      hide Pass, Marked, Sound, Fits, Perform, Good, Shape, NextMark, ReplyTo, Broken, SwitchCb;
      m', open', ctl := m, open, Again;
      ghost var c0 := Conf(it, open, log);
      while ctl.Again?
        invariant ctl.Again? ==> !Reads(it.state) && Sound(it) && Fits(it.state, open')
        invariant ctl.Again? || ctl.Next? ==> Marked(m', open', data, i)
        invariant SwitchCb(hc, cb, c0, data[i]) ==
          if ctl.Again? then SwitchCb(hc, cb, Conf(it, open', log), data[i]) else (Conf(it, open', log), ctl)
        decreases if ctl.Again? then Rank(it.state) + 1 else 0
      {
        ghost var c := Conf(it, open', log);
        StepFacts(hc, cb, c, data[i]);
        var o := Pass(hc, it, data[i]);
        ghost var d := Perform(o.act, c.(p := o.p));
        it := o.p;
        if o.ctl.Fail? {
          if o.act.Notify? {
            log := log + [o.act.event];
          }
          open', ctl := d.open, Fail;
        } else {
          PerformForgets(o.act, c, o.p);
          var ok;
          m', ok := Do(cb, o.act, m', open', data, i);
          open' := d.open;
          ctl := if ok then o.ctl else if o.ctl.Again? then Fail else Stop;
        }
      }
    }

    /** s_body_identity and s_chunk_data: as much as there is of the length that is left. */
    method ReadCounted(cb: Listener, m: Marks, ghost open: Open, data: seq<byte>, i: nat)
      returns (m': Marks, ghost open': Open, i': nat, ctl: Control)
      requires i < |data| && Marked(m, open, data, i) && Fits(it.state, open) && it.errno.Ok?
      requires Counted(it.state) && 0 < it.contentLength
      modifies this
      ensures i < i' <= |data| && i' - i <= old(it).contentLength
      ensures BodyCb(cb, Conf(old(it), open, old(log)), data[i..i']) == (Conf(it, open', log), ctl)
      ensures ctl.Next? ==> Marked(m', open', data, i')
    {
      var toRead := if it.contentLength < |data| - i then it.contentLength else |data| - i;
      hide ReplyTo, Broken, Code;
      ghost var c := Conf(it, open, log);
      ctl := Next;
      m' := if m.body == -1 then m.(body := i) else m;
      assert data[m'.body..i] + data[i..i + toRead] == data[m'.body..i + toRead];
      assert data[i..i] == [];
      assert Held(c) == data[m'.body..i];
      it := it.(contentLength := it.contentLength - toRead);
      i' := i + toRead;
      open' := Open(Body, data[m'.body..i']);
      if it.contentLength == 0 {
        if it.state.BodyIdentity? {
          it := it.(state := MessageDone);
          var ok;
          open' := Closed;
          ghost var bytes := Held(c) + data[i..i'];
          assert data[m'.body..i'] == bytes;
          ReplyIs(cb, log, it, Closed, Data(Body, bytes));
          m', ok := CallbackData(cb, m', Body, data, i');
          if !ok {
            return m', open', i', Fail;
          }
          // goto reexecute_byte, to s_message_done
          it := it.(state := NewMessage(it));
          ReplyIs(cb, log, it, Closed, Complete);
          assert c.out + [Data(Body, bytes)] + [Complete] == c.out + [Data(Body, bytes), Complete];
          ok := Callback(cb, Complete);
          if !ok {
            return m', open', i', Stop;
          }
        } else {
          it := it.(state := ChunkDataAlmostDone);
        }
      }
    }

    /** s_body_identity_eof: all that is there. */
    method ReadToEnd(m: Marks, ghost open: Open, data: seq<byte>, i: nat) returns (m': Marks, ghost open': Open, i': nat)
      requires i < |data| && Marked(m, open, data, i) && Fits(it.state, open) && it.state.BodyIdentityEof?
      ensures i' == |data| && Marked(m', open', data, i')
      ensures open' == Open(Body, Held(Conf(it, open, log)) + data[i..])
    {
      m' := if m.body == -1 then m.(body := i) else m;
      assert data[m'.body..i] + data[i..] == data[m'.body..];
      assert data[i..i] == [];
      i' := |data|;
      open' := Open(Body, data[m'.body..i']);
    }

    /** One turn of the loop in the other states: the header limit, then the switch. */
    method ByteAt(hc: Decide, cb: Listener, m: Marks, ghost open: Open, data: seq<byte>, i: nat)
      returns (m': Marks, ghost open': Open, ctl: Control)
      requires i < |data| && Marked(m, open, data, i) && !Reads(it.state) && Between(Conf(it, open, log))
      modifies this
      ensures ByteStepCb(hc, cb, Conf(old(it), open, old(log)), data[i]) == (Conf(it, open', log), ctl)
      ensures ctl.Next? ==> Marked(m', open', data, i + 1)
    {
      hide Marked, Between, Sound, Fits, SwitchCb;
      ghost var c := Conf(it, open, log);
      CountKeeps(c);
      if ParsingHeader(it.state) {
        it := it.(nread := it.nread + 1);
        if it.nread > MAX_HEADER_SIZE {
          it := it.(errno := HeaderOverflow);
          return m, open, Fail;
        }
      }
      BetweenSound(c);
      m', open', ctl := SwitchByte(hc, cb, m, open, data, i);
      if ctl.Next? {
        TakeMarked(m', Conf(it, open', log), data, i);
        open' := Take(Conf(it, open', log), data[i]).open;
      }
    }

    /** The callbacks for marks left over; at most one is set. */
    method FlushAll(cb: Listener, m: Marks, ghost open: Open, data: seq<byte>)
      requires Marked(m, open, data, |data|) && it.errno.Ok?
      modifies this
      ensures var d := LeaveCb(cb, Conf(old(it), open, old(log))); log == d.out && it == d.p
    {
      assert open.Open? ==> data[Get(m, open.kind)..|data|] == open.bytes;
      var rest, ok := CallbackData(cb, m, Field, data, |data|);
      if !ok { return; }
      rest, ok := CallbackData(cb, rest, Value, data, |data|);
      if !ok { return; }
      rest, ok := CallbackData(cb, rest, Url, data, |data|);
      if !ok { return; }
      rest, ok := CallbackData(cb, rest, Body, data, |data|);
    }

    /** The loop over a non-empty buffer, against the byte-wise run. */
    method Loop(hc: Decide, cb: Listener, data: seq<byte>) returns (n: nat, ctl: Control, m: Marks, ghost open: Open)
      requires Between(Enter(it, log))
      modifies this
      ensures RunCb(hc, cb, Enter(old(it), old(log)), data) == Result(Conf(it, open, log), n, ctl)
      ensures ctl.Next? ==> Marked(m, open, data, |data|) && it.errno.Ok?
    {
      hide RunCb, ByteStepCb, Between, Marked, AfterBody, Fits, BodyCb;
      m := StartMarks(it.state);
      open := Enter(it, log).open;
      EnterMarked(it, log, m, data);
      ghost var c0 := Conf(it, open, log);
      assert data[0..] == data;
      var i := 0;
      ctl := Next;
      while i < |data|
        invariant 0 <= i <= |data| && ctl.Next? && Between(Conf(it, open, log)) && Marked(m, open, data, i)
        invariant RunCb(hc, cb, c0, data) == Later(i, RunCb(hc, cb, Conf(it, open, log), data[i..]))
      {
        ghost var c := Conf(it, open, log);
        if Counted(it.state) {
          var j;
          BetweenCounted(c);
          m, open, j, ctl := ReadCounted(cb, m, open, data, i);
          LaterBody(hc, cb, c, data, i, j);
          if ctl.Stop? {
            return j, ctl, m, open;
          }
          if !ctl.Next? {
            return j - 1, ctl, m, open;
          }
          i := j;
        } else if it.state.BodyIdentityEof? {
          var j;
          BetweenFits(c);
          m, open, j := ReadToEnd(m, open, data, i);
          LaterEof(hc, cb, c, data, i);
          i := j;
        } else {
          m, open, ctl := ByteAt(hc, cb, m, open, data, i);
          LaterByte(hc, cb, c, Conf(it, open, log), ctl, data, i);
          if ctl.Stop? {
            return i + 1, ctl, m, open;
          }
          if !ctl.Next? {
            return i, ctl, m, open;
          }
          i := i + 1;
        }
      }
      LaterEnd(hc, cb, Conf(it, open, log), data);
      BetweenFits(Conf(it, open, log));
      n := |data|;
    }

    /** An empty buffer. */
    method EndOfInput(cb: Listener) returns (n: nat)
      requires it.errno.Ok?
      modifies this
      ensures var x := AtEofCb(cb, old(it)); it == x.p && log == old(log) + x.out && n == x.consumed
    {
      match it.state
      case BodyIdentityEof =>
        var ok := Callback(cb, Complete);
        n := 0;
      case Dead => n := 0;
      case StartReqOrRes => n := 0;
      case StartRes => n := 0;
      case StartReq => n := 0;
      case _ =>
        it := it.(errno := InvalidEofState);
        n := 1;
    }

    /** http_parser_execute, with callbacks that may fail or pause: the parser, the callbacks and the
        number of bytes taken are those of the byte-wise reference. */
    method Execute(hc: Decide, cb: Listener, data: seq<byte>) returns (n: nat)
      requires it.errno.Ok? ==> Between(Enter(it, []))
      modifies this
      ensures var x := ExecuteCb(hc, cb, old(it), data);
        it == x.p && log == old(log) + x.out && n == x.consumed
    {
      hide RunCb, Between, Marked, LeaveCb;
      if !it.errno.Ok? {
        return 0;
      }
      if data == [] {
        n := EndOfInput(cb);
        return;
      }
      ghost var p, pre := it, log;
      EnterAnyLog(p, pre);
      RunCbShift(hc, cb, Enter(p, []), pre, data);
      assert Shifted(Enter(p, []), pre) == Enter(p, pre);
      var ctl, m;
      ghost var open;
      n, ctl, m, open := Loop(hc, cb, data);
      ghost var u := RunCb(hc, cb, Enter(p, []), data).conf;
      assert RunCb(hc, cb, Enter(p, pre), data).conf == Shifted(u, pre);
      if ctl.Next? {
        FlushAll(cb, m, open, data);
        LeaveCbShift(cb, u, pre);
      }
    }
  }

  lemma EnterAnyLog(p: Parser, pre: seq<Event>)
    requires Between(Enter(p, []))
    ensures Between(Enter(p, pre)) && [] + pre == pre && pre + [] == pre
  {
  }

  lemma EnterMarked(p: Parser, log: seq<Event>, m: Marks, data: seq<byte>)
    requires m == StartMarks(p.state)
    ensures Marked(m, Enter(p, log).open, data, 0) && Enter(p, log) == Conf(p, Enter(p, log).open, log)
  {
    assert data[0..0] == [];
  }

  lemma BetweenSound(c: Conf)
    requires Between(c)
    ensures Sound(Count(c.p)) && Fits(Count(c.p).state, c.open)
  {
  }

  lemma BetweenFits(c: Conf)
    requires Between(c)
    ensures Fits(c.p.state, c.open) && c.p.errno.Ok?
  {
  }

  lemma BetweenCounted(c: Conf)
    requires Between(c) && Counted(c.p.state)
    ensures 0 < c.p.contentLength && Fits(c.p.state, c.open) && c.p.errno.Ok?
  {
  }

  lemma TakeMarked(m: Marks, c: Conf, data: seq<byte>, i: nat)
    requires i < |data| && Marked(m, c.open, data, i)
    ensures Marked(m, Take(c, data[i]).open, data, i + 1)
  {
  }

  lemma LaterEnd(hc: Decide, cb: Listener, c: Conf, data: seq<byte>)
    ensures RunCb(hc, cb, c, data[|data|..]) == Result(c, 0, Next)
  {
    assert data[|data|..] == [];
  }

  lemma LaterByte(hc: Decide, cb: Listener, c: Conf, d: Conf, ctl: Control, data: seq<byte>, i: nat)
    requires Between(c) && i < |data| && ByteStepCb(hc, cb, c, data[i]) == (d, ctl)
    ensures ctl.Next? ==> Between(d) && RunCb(hc, cb, c, data[i..]) == Later(1, RunCb(hc, cb, d, data[i + 1..]))
    ensures !ctl.Next? ==> RunCb(hc, cb, c, data[i..]) == Result(d, if ctl.Stop? then 1 else 0, ctl)
  {
    hide ByteStepCb, Between;
    ByteStepCbKeeps(hc, cb, c, data[i]);
    assert data[i..][0] == data[i] && data[i..][1..] == data[i + 1..];
  }

  lemma LaterBody(hc: Decide, cb: Listener, c: Conf, data: seq<byte>, i: nat, j: nat)
    requires Between(c) && Counted(c.p.state) && i < j <= |data| && j - i <= c.p.contentLength
    ensures var (d, k) := BodyCb(cb, c, data[i..j]);
      if k.Next? then Between(d) && RunCb(hc, cb, c, data[i..]) == Later(j - i, RunCb(hc, cb, d, data[j..]))
      else !k.Again? && RunCb(hc, cb, c, data[i..]) == Result(d, BodyTaken(j - i, k), k)
  {
    hide Run, RunCb, BodyCb, Ended;
    BodyRunCb(hc, cb, c, data[i..j]);
    RunEnds(hc, cb, c, data[i..j]);
    RunKeeps(hc, c, data[i..j]);
    RunCbAppend(hc, cb, c, data[i..j], data[j..]);
    assert data[i..j] + data[j..] == data[i..];
  }

  lemma LaterEof(hc: Decide, cb: Listener, c: Conf, data: seq<byte>, i: nat)
    requires Between(c) && c.p.state.BodyIdentityEof? && i < |data|
    ensures var d := c.(open := Open(Body, Held(c) + data[i..]));
      Between(d) && RunCb(hc, cb, c, data[i..]) == Later(|data| - i, RunCb(hc, cb, d, data[|data|..]))
  {
    hide Run, RunCb, Ended;
    EofBodyRun(hc, c, data[i..]);
    RunKeeps(hc, c, data[i..]);
    RunCbQuiet(hc, cb, c, data[i..]);
    LaterEnd(hc, cb, c.(open := Open(Body, Held(c) + data[i..])), data);
  }

  lemma PerformForgets(a: Act, c: Conf, p: Parser)
    ensures Perform(a, c.(p := p)) == Perform(a, c).(p := p)
  {
  }

  /** The reply to a callback is asked for once the parser is where the pass leads. */
  lemma StepFacts(hc: Decide, cb: Listener, c: Conf, ch: byte)
    requires Sound(c.p) && Fits(c.p.state, c.open) && !Reads(c.p.state)
    ensures var o := Pass(hc, c.p, ch);
      var d := Perform(o.act, c.(p := o.p));
      && (o.act.Mark? || o.act.Touch? ==> c.open.Closed?)
      && (o.ctl.Fail? ==> d.out == if o.act.Notify? then c.out + [o.act.event] else c.out)
      && (!o.ctl.Fail? ==> o.p.errno.Ok?)
      && (o.ctl.Again? ==> !Reads(o.p.state) && Rank(o.p.state) < Rank(c.p.state) && Sound(o.p) && Fits(o.p.state, d.open))
      && SwitchCb(hc, cb, c, ch) ==
           if o.ctl.Fail? then (d, Fail)
           else if ReplyTo(cb, c.out, d) != Fine then (Broken(cb, d), if o.ctl.Again? then Fail else Stop)
           else if o.ctl.Again? then SwitchCb(hc, cb, d, ch)
           else (d, o.ctl)
  {
    PassMarks(hc, c.p, ch);
    PassGood(hc, c.p, ch);
    var o := Pass(hc, c.p, ch);
    hide Pass, Sound, ReplyTo, Broken;
    if o.ctl.Again? {
      PerformFits(c.p.state, o.act, o.p.state, c.(p := o.p));
    }
  }
}
