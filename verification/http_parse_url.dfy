/** http_parser_parse_url: a URL taken apart into 16-bit offsets and lengths. */
module HttpParseUrl {
  import opened HttpTypes
  import HttpStep
  import opened HttpUrl
  import HttpBody
  import HttpUrlGrammar
  import opened Options

  // ---- what the grammar says ----

  /** A URL that is accepted: complete, for CONNECT host and port alone, and the port a 16-bit number. */
  predicate Proper(u: HttpUrlGrammar.Url, connect: bool, port: nat) {
    HttpUrlGrammar.Complete(u) && (connect ==> HttpUrlGrammar.Parts(u).Keys == {HostName, PortNumber}) && port <= 0xffff
  }

  /** Its port as a number; 0 when there is none. */
  function PortOf(u: HttpUrlGrammar.Url): nat
    requires HttpUrlGrammar.Made(u.front.port, HttpUrlGrammar.DIGITS)
  {
    HttpBody.Value(10, HttpBody.Digits(u.front.port))
  }

  predicate Written(u: HttpUrlGrammar.Url, connect: bool, buf: seq<byte>) {
    HttpUrlGrammar.UrlOk(u, connect) && HttpUrlGrammar.Text(u) == buf
  }

  lemma WrittenMade(u: HttpUrlGrammar.Url, connect: bool, buf: seq<byte>)
    requires Written(u, connect, buf)
    ensures HttpUrlGrammar.Made(u.front.port, HttpUrlGrammar.DIGITS)
  {
  }

  /** The decimal value of a run of digits. */
  lemma {:induction false} NumberIs(buf: seq<byte>, from: nat, end: nat)
    requires from <= end <= |buf| && forall k :: from <= k < end ==> IsNum(buf[k])
    ensures NumberUpTo(buf, from, end) == HttpBody.Value(10, HttpBody.Digits(buf[from..end]))
    decreases end
  {
    if from < end {
      var a, ch := buf[from..end - 1], buf[end - 1];
      NumberIs(buf, from, end - 1);
      assert buf[from..end] == a + [ch];
      assert IsNum((a + [ch])[0]);
      HttpBody.DigitsMore(a, ch);
    }
  }

  lemma NoDigits()
    ensures HttpBody.Value(10, HttpBody.Digits([])) == 0
  {
  }

  lemma PortIs(u: HttpUrlGrammar.Url, connect: bool, buf: seq<byte>)
    requires Written(u, connect, buf)
    ensures PortValue(buf, HttpUrlGrammar.Parts(u)) == PortOf(u)
  {
    hide HttpUrlGrammar.UrlOk, HttpUrlGrammar.Text, HttpBody.Digits, HttpBody.Value, NumberUpTo,
      HttpUrlGrammar.PieceAt, HttpUrlGrammar.DIGITS;
    WrittenMade(u, connect, buf);
    NoDigits();
    var runs := HttpUrlGrammar.Parts(u);
    if PortNumber in runs {
      HttpUrlGrammar.PartsAre(u, PortNumber);
      var s := runs[PortNumber];
      forall k | s.off <= k < s.off + s.len ensures IsNum(buf[k]) {
        assert buf[k] == u.front.port[k - s.off];
        HttpUrlGrammar.Classes(buf[k]);
      }
      NumberIs(buf, s.off, s.off + s.len);
    } else {
      assert u.front.port == [];
    }
  }

  /** A written URL against the scan of it. */
  lemma WrittenMeans(buf: seq<byte>, connect: bool, runs: map<Part, Span>, u: HttpUrlGrammar.Url)
    requires Written(u, connect, buf) && Cut(buf, connect, |buf|, runs)
    ensures Alive(buf, connect, |buf|) && runs == HttpUrlGrammar.Parts(u)
    ensures Acceptable(buf, connect, runs, PortRead(buf, runs)) <==> Proper(u, connect, PortRead(buf, runs))
    ensures Acceptable(buf, connect, runs, PortValue(buf, runs)) <==> Proper(u, connect, PortOf(u))
    ensures PortValue(buf, runs) == PortOf(u)
  {
    hide Cut, Alive, StateAt, PortRead, PortValue, PortOf, BadEnd;
    assert buf[..|buf|] == buf;
    HttpUrlGrammar.WrittenRuns(buf, connect, |buf|, u);
    CutUnique(buf, connect, HttpUrlGrammar.Parts(u), runs);
    HttpUrlGrammar.CompleteEnds(u, connect);
    PortIs(u, connect, buf);
  }

  lemma ScanWritten(buf: seq<byte>, connect: bool)
    requires Alive(buf, connect, |buf|)
    ensures exists u :: Written(u, connect, buf)
  {
    hide Alive;
    var u := HttpUrlGrammar.ReadUrl(buf, connect, |buf|);
    assert buf[..|buf|] == buf;
    assert Written(u, connect, buf);
  }

  lemma AllWritten(buf: seq<byte>, connect: bool)
    ensures forall u :: Written(u, connect, buf) ==> Alive(buf, connect, |buf|) && HttpUrlGrammar.Made(u.front.port, HttpUrlGrammar.DIGITS)
  {
    hide Alive;
    assert buf[..|buf|] == buf;
    forall u | Written(u, connect, buf) ensures Alive(buf, connect, |buf|) {
      HttpUrlGrammar.WrittenRuns(buf, connect, |buf|, u);
    }
  }

  // ---- the code ----

  /** struct http_parser_url, with 16-bit offsets and lengths. */
  class HttpParserUrl {
    var fieldSet: set<Part>
    var port: nat
    var data: map<Part, Span>

    constructor ()
      ensures data == map[]
    {
      fieldSet := {};
      port := 0;
      data := map[];
    }

    /** Offsets and lengths are the runs', cut to 16 bits. */
    ghost predicate Holds(runs: map<Part, Span>)
      reads this
    {
      fieldSet == runs.Keys &&
      forall f :: f in runs ==> f in data && data[f].off == runs[f].off % WORD && data[f].len == runs[f].len % WORD
    }

    /** One byte in state s: a new part, or one more byte of the same. */
    method Enter(f: Part, same: bool, i: nat, ghost runs: map<Part, Span>) returns (ghost next: map<Part, Span>)
      requires Holds(runs) && (same ==> f in runs)
      modifies this`fieldSet, this`data
      ensures next == Grown(runs, f, same, i)
      ensures Holds(next)
    {
      next := Grown(runs, f, same, i);
      assert next.Keys == runs.Keys + {f};
      assert forall g :: g in runs && g != f ==> next[g] == runs[g];
      if same {
        data := data[f := Span(data[f].off, (data[f].len + 1) % WORD)];
        Wraps(runs[f].len);
      } else {
        data := data[f := Span(i % WORD, 1)];
        fieldSet := fieldSet + {f};
      }
    }

    /** One byte of the loop. */
    method Byte(buf: seq<byte>, connect: bool, i: nat, s: State, last: Option<Part>, ghost runs: map<Part, Span>)
      returns (s': State, last': Option<Part>, ghost runs': map<Part, Span>)
      requires i < |buf| && s == StateAt(buf, connect, i) && Alive(buf, connect, i)
      requires Found(buf, connect, i, runs, last) && Holds(runs)
      modifies this`fieldSet, this`data
      ensures s' == StateAt(buf, connect, i + 1)
      ensures !s'.Dead? ==> Found(buf, connect, i + 1, runs', last') && Holds(runs')
    {
      hide UrlChar, Cut, PartOf, Last, HttpStep.InUrl, StateAt, Alive, Grown, Found;
      s', last', runs' := UrlChar(s, buf[i]), last, runs;
      AliveMore(buf, connect, i);
      if s'.Dead? {
        return;
      }
      var f := PartOf(s');
      if f == None {
        FoundSkip(buf, connect, i, runs, last);
      } else {
        FoundMore(buf, connect, i, runs, last, f.value);
        runs' := Enter(f.value, f == last, i, runs);
        last' := f;
      }
    }

    method Reset()
      modifies this
      ensures port == 0 && Holds(map[])
    {
      port := 0;
      fieldSet := {};
    }

    /** The loop: false when a byte is not allowed where it stands. */
    method Scan(buf: seq<byte>, connect: bool) returns (ok: bool, s: State, ghost runs: map<Part, Span>)
      modifies this
      ensures port == 0
      ensures ok <==> Alive(buf, connect, |buf|)
      ensures ok ==> s == StateAt(buf, connect, |buf|) && Cut(buf, connect, |buf|, runs) && Holds(runs)
    {
      hide UrlChar, Cut, Last, StateAt, Alive, Holds, Found;
      Reset();
      s := StartState(connect);
      runs := map[];
      var last: Option<Part> := None;
      var i := 0;
      ScanStart(buf, connect);
      while i < |buf|
        invariant 0 <= i <= |buf| && port == 0
        invariant s == StateAt(buf, connect, i) && Alive(buf, connect, i)
        invariant Found(buf, connect, i, runs, last) && Holds(runs)
      {
        AliveMore(buf, connect, i);
        s, last, runs := Byte(buf, connect, i, s, last, runs);
        if s.Dead? {
          ok := false;
          return;
        }
        i := i + 1;
      }
      FoundCut(buf, connect, i, runs, last);
      ok := true;
    }

    /** http_parser_parse_url. It succeeds exactly on the acceptable URLs, and records each part where it
        is, all in 16 bits; so the fields are the parts exactly when these are short, and then the port
        is the value of its digits. */
    method ParseUrl(buf: seq<byte>, connect: bool) returns (err: bool, ghost runs: map<Part, Span>)
      modifies this
      ensures !Alive(buf, connect, |buf|) ==> err
      ensures Alive(buf, connect, |buf|) ==>
        Cut(buf, connect, |buf|, runs) && (err <==> !Acceptable(buf, connect, runs, PortRead(buf, runs)))
      ensures !err ==> Holds(runs) && port == PortRead(buf, runs)
      ensures !err ==> ((forall f :: f in runs ==> f in data && data[f] == runs[f]) <==> Short(runs))
      ensures Alive(buf, connect, |buf|) && Short(runs) ==>
        (err <==> !Acceptable(buf, connect, runs, PortValue(buf, runs))) && (!err ==> port == PortValue(buf, runs))
      ensures !err ==> exists u :: Written(u, connect, buf)
      ensures forall u :: Written(u, connect, buf) ==>
        runs == HttpUrlGrammar.Parts(u) && (err <==> !Proper(u, connect, PortRead(buf, runs)))
      ensures forall u :: Written(u, connect, buf) && Short(runs) ==>
        HttpUrlGrammar.Made(u.front.port, HttpUrlGrammar.DIGITS) && (err <==> !Proper(u, connect, PortOf(u))) && (!err ==> port == PortOf(u))
    {
      hide Alive, StateAt, Cut, StrToUl, Written, Proper, PortOf, HttpUrlGrammar.Parts;
      var ok, s;
      ok, s, runs := Scan(buf, connect);
      AllWritten(buf, connect);
      if !ok {
        return true, runs;
      }
      ScanWritten(buf, connect);
      forall u | Written(u, connect, buf)
        ensures runs == HttpUrlGrammar.Parts(u) && PortValue(buf, runs) == PortOf(u)
        ensures Acceptable(buf, connect, runs, PortRead(buf, runs)) <==> Proper(u, connect, PortRead(buf, runs))
        ensures Acceptable(buf, connect, runs, PortValue(buf, runs)) <==> Proper(u, connect, PortOf(u))
      {
        WrittenMeans(buf, connect, runs, u);
      }
      ReadShort(buf, connect, runs);
      if connect && fieldSet != {HostName, PortNumber} {
        return true, runs;
      }
      if BadEnd(s) {
        return true, runs;
      }
      FieldsExactly(runs);
      if PortNumber in fieldSet {
        var v := StrToUl(buf, data[PortNumber].off);
        if v > 0xffff {
          return true, runs;
        }
        port := v;
      }
      return false, runs;
    }
  }
}
