/** `updateLastEvent`: a bounded, run-compressed log of events. */
module EventLog {
  import opened CustomResource

  const EVENT_MAX_SIZE := 10

  /** The two readings of the clock one call may take, in order. */
  datatype Clock = Clock(first: int, second: int)

  datatype Call = Call(code: int, msg: string, status: bool, now: Clock)

  /** One call, on a log that is already short enough. */
  function Append(events: seq<Event>, c: Call): seq<Event> {
    if events == [] then [Event(false, c.now.first, c.now.second, c.msg, c.code)]
    else
      var last := events[|events| - 1];
      if last.code == c.code then
        events[..|events| - 1] + [last.(lastTransitionTime := c.now.first, message := c.msg)]
      else
        events + [Event(c.status, c.now.second, c.now.first, c.msg, c.code)]
  }

  function Record(events: seq<Event>, c: Call): seq<Event> {
    Append(if |events| > EVENT_MAX_SIZE then events[1..] else events, c)
  }

  method UpdateLastEvent(nacos: Nacos, code: int, msg: string, status: bool, now: Clock)
    modifies nacos`status
    ensures nacos.status == old(nacos.status).(events := Record(old(nacos.status.events), Call(code, msg, status, now)))
  {
    var event;
    var reading := now.first;
    if |nacos.status.events| > EVENT_MAX_SIZE {
      nacos.status := nacos.status.(events := nacos.status.events[1..]);
    }
    if |nacos.status.events| == 0 {
      event := Event(false, reading, 0, msg, code);
      reading := now.second;
      nacos.status := nacos.status.(events := nacos.status.events + [event]);
    } else {
      event := nacos.status.events[|nacos.status.events| - 1];
    }
    var events := nacos.status.events;
    if event.code == code {
      event := event.(lastTransitionTime := reading, message := msg);
      nacos.status := nacos.status.(events := events[|events| - 1 := event]);
    } else {
      event := Event(status, now.second, reading, msg, code);
      nacos.status := nacos.status.(events := events + [event]);
    }
  }

  /**
    What one call does to the log, told in fields. Of more than ten records the oldest goes. A code that is the newest
    already only renews the last change and the message of that record; any other code gets a record of its own, which
    changed last at the first reading and appeared at the second. The very first record never has its status set.
   */
  lemma RecordTells(events: seq<Event>, c: Call)
    ensures var kept := if |events| > 10 then events[1..] else events;
            var r := Record(events, c);
      && r != [] && r[|r| - 1].code == c.code && r[|r| - 1].message == c.msg
      && (kept != [] && kept[|kept| - 1].code == c.code ==>
            && |r| == |kept| && r[..|r| - 1] == kept[..|kept| - 1]
            && r[|r| - 1].lastTransitionTime == c.now.first
            && r[|r| - 1].firstAppearTime == kept[|kept| - 1].firstAppearTime
            && r[|r| - 1].status == kept[|kept| - 1].status)
      && (kept != [] && kept[|kept| - 1].code != c.code ==>
            && r[..|r| - 1] == kept
            && r[|r| - 1].lastTransitionTime == c.now.first && r[|r| - 1].firstAppearTime == c.now.second
            && r[|r| - 1].status == c.status)
      && (kept == [] ==>
            && |r| == 1 && r[0].firstAppearTime == c.now.first && r[0].lastTransitionTime == c.now.second
            && !r[0].status)
  {
  }

  // ---------------------------------------------------------------- the log over many calls

  /** The log after these calls, starting empty. */
  function Log(calls: seq<Call>): seq<Event> {
    if calls == [] then [] else Record(Log(calls[..|calls| - 1]), calls[|calls| - 1])
  }

  /** The same without the bound: nothing is ever dropped. */
  function FullLog(calls: seq<Call>): seq<Event> {
    if calls == [] then [] else Append(FullLog(calls[..|calls| - 1]), calls[|calls| - 1])
  }

  /** Consecutive repetitions of one code told once. */
  function Compressed(codes: seq<int>): seq<int> {
    if codes == [] then []
    else
      var c, last := Compressed(codes[..|codes| - 1]), codes[|codes| - 1];
      if c != [] && c[|c| - 1] == last then c else c + [last]
  }

  ghost function CodesOf(events: seq<Event>): (r: seq<int>)
    ensures |r| == |events| && forall i | 0 <= i < |r| :: r[i] == events[i].code
  {
    seq(|events|, i requires 0 <= i < |events| => events[i].code)
  }

  ghost function CalledCodes(calls: seq<Call>): (r: seq<int>)
    ensures |r| == |calls| && forall i | 0 <= i < |r| :: r[i] == calls[i].code
  {
    seq(|calls|, i requires 0 <= i < |calls| => calls[i].code)
  }

  ghost predicate IsSuffix<T>(s: seq<T>, t: seq<T>) {
    |s| <= |t| && s == t[|t| - |s|..]
  }

  function Min(a: int, b: int): int { if a < b then a else b }

  lemma AppendSuffix(s: seq<Event>, t: seq<Event>, c: Call)
    requires IsSuffix(s, t) && (s == [] ==> t == [])
    ensures IsSuffix(Append(s, c), Append(t, c))
    ensures |Append(t, c)| - |Append(s, c)| == |t| - |s|
  {
    if s != [] {
      assert s[|s| - 1] == t[|t| - 1];
      assert t == t[..|t| - |s|] + s;
    }
  }

  /**
    The bounded log is always the end of the unbounded one, record for record; it never holds more than
    eleven, and never fewer than ten once ten have been there.
   */
  lemma {:induction false} LogRefinesFullLog(calls: seq<Call>)
    ensures IsSuffix(Log(calls), FullLog(calls))
    ensures Min(EVENT_MAX_SIZE, |FullLog(calls)|) <= |Log(calls)| <= EVENT_MAX_SIZE + 1
  {
    hide IsSuffix, Append;
    if calls == [] {
      SuffixOfItself(FullLog(calls));
    } else {
      var front, c := calls[..|calls| - 1], calls[|calls| - 1];
      LogRefinesFullLog(front);
      RecordRefines(Log(front), FullLog(front), c);
    }
  }

  lemma SuffixOfItself(t: seq<Event>)
    ensures IsSuffix(t, t)
  {
  }

  lemma DropFirstSuffix(s: seq<Event>, t: seq<Event>)
    requires IsSuffix(s, t) && s != []
    ensures IsSuffix(s[1..], t)
  {
  }

  /** One bounded call against one unbounded one. */
  lemma RecordRefines(s: seq<Event>, t: seq<Event>, c: Call)
    requires IsSuffix(s, t) && Min(EVENT_MAX_SIZE, |t|) <= |s| <= EVENT_MAX_SIZE + 1
    ensures IsSuffix(Record(s, c), Append(t, c))
    ensures Min(EVENT_MAX_SIZE, |Append(t, c)|) <= |Record(s, c)| <= EVENT_MAX_SIZE + 1
  {
    hide IsSuffix, Append;
    if |s| > EVENT_MAX_SIZE {
      DropFirstSuffix(s, t);
    }
    var kept := if |s| > EVENT_MAX_SIZE then s[1..] else s;
    AppendSuffix(kept, t, c);
    AppendGrows(kept, c);
    AppendGrows(t, c);
  }

  lemma AppendGrows(s: seq<Event>, c: Call)
    ensures |s| <= |Append(s, c)| <= |s| + 1 && |Append(s, c)| > 0
  {
  }

  /** The codes of the unbounded log are the run-compressed codes of the calls. */
  lemma {:induction false} FullLogCompresses(calls: seq<Call>)
    ensures CodesOf(FullLog(calls)) == Compressed(CalledCodes(calls))
  {
    if calls != [] {
      var front := calls[..|calls| - 1];
      FullLogCompresses(front);
      assert CalledCodes(calls)[..|calls| - 1] == CalledCodes(front);
      assert CodesOf(FullLog(front)) != [] ==>
          CodesOf(FullLog(front))[|FullLog(front)| - 1] == FullLog(front)[|FullLog(front)| - 1].code;
    }
  }

  ghost predicate NoRepeats(codes: seq<int>) {
    forall i | 0 <= i < |codes| - 1 :: codes[i] != codes[i + 1]
  }

  lemma {:induction false} CompressedNeighbours(codes: seq<int>)
    ensures NoRepeats(Compressed(codes))
  {
    if codes != [] {
      CompressedNeighbours(codes[..|codes| - 1]);
    }
  }

  lemma SuffixCodes(s: seq<Event>, t: seq<Event>)
    requires IsSuffix(s, t)
    ensures IsSuffix(CodesOf(s), CodesOf(t))
  {
    var c, d := CodesOf(s), CodesOf(t);
    assert c == d[|d| - |c|..];
  }

  lemma SuffixNoRepeats(c: seq<int>, d: seq<int>)
    requires IsSuffix(c, d) && NoRepeats(d)
    ensures NoRepeats(c)
  {
    forall i | 0 <= i < |c| - 1 ensures c[i] != c[i + 1] {
      assert c[i] == d[|d| - |c| + i] && c[i + 1] == d[|d| - |c| + i + 1];
    }
  }

  /** The codes in the log are the end of the compressed history, and no two neighbours are equal. */
  lemma LogTellsHistory(calls: seq<Call>)
    ensures IsSuffix(CodesOf(Log(calls)), Compressed(CalledCodes(calls)))
    ensures NoRepeats(CodesOf(Log(calls)))
    ensures |Log(calls)| <= 11 && |Log(calls)| >= Min(10, |Compressed(CalledCodes(calls))|)
  {
    hide IsSuffix, NoRepeats, Log, FullLog, Compressed, CalledCodes;
    LogRefinesFullLog(calls);
    FullLogCompresses(calls);
    CompressedNeighbours(CalledCodes(calls));
    SuffixCodes(Log(calls), FullLog(calls));
    SuffixNoRepeats(CodesOf(Log(calls)), Compressed(CalledCodes(calls)));
  }

  /** The newest event always has the code of the last call and its message. */
  lemma LogEndsWithLastCall(calls: seq<Call>)
    requires calls != []
    ensures var c := calls[|calls| - 1];
      Log(calls) != [] && Log(calls)[|Log(calls)| - 1].code == c.code && Log(calls)[|Log(calls)| - 1].message == c.msg
  {
  }

  // ---------------------------------------------------------------- times

  /** Clock readings that never go back, within a call and from call to call. */
  ghost predicate ClockForward(calls: seq<Call>) {
    && (forall i | 0 <= i < |calls| :: calls[i].now.first <= calls[i].now.second)
    && (forall i, j | 0 <= i < j < |calls| :: calls[i].now.second <= calls[j].now.first)
  }

  ghost predicate NotAfter(events: seq<Event>, t: int) {
    forall i | 0 <= i < |events| :: events[i].firstAppearTime <= t && events[i].lastTransitionTime <= t
  }

  /** A record is over before the next one appears. */
  ghost predicate OneAfterTheOther(events: seq<Event>) {
    forall i | 0 < i < |events| ::
      && events[i - 1].lastTransitionTime <= events[i].firstAppearTime
      && events[i - 1].lastTransitionTime <= events[i].lastTransitionTime
  }

  lemma DropFirstTimes(events: seq<Event>, t: int)
    requires OneAfterTheOther(events) && NotAfter(events, t) && events != []
    ensures OneAfterTheOther(events[1..]) && NotAfter(events[1..], t)
  {
    var k := events[1..];
    assert forall i | 0 <= i < |k| :: k[i] == events[i + 1];
  }

  lemma AppendTimes(events: seq<Event>, c: Call)
    requires OneAfterTheOther(events) && NotAfter(events, c.now.first) && c.now.first <= c.now.second
    ensures OneAfterTheOther(Append(events, c))
    ensures NotAfter(Append(events, c), c.now.second)
  {
    var r := Append(events, c);
    if events != [] {
      var n := |events| - 1;
      assert forall i | 0 <= i < n :: r[i] == events[i];
      assert r[n].firstAppearTime == events[n].firstAppearTime;
      assert r[n].lastTransitionTime == events[n].lastTransitionTime || r[n].lastTransitionTime == c.now.first;
    }
  }

  lemma RecordTimes(events: seq<Event>, c: Call)
    requires OneAfterTheOther(events) && NotAfter(events, c.now.first) && c.now.first <= c.now.second
    ensures OneAfterTheOther(Record(events, c))
    ensures NotAfter(Record(events, c), c.now.second)
  {
    hide Append, OneAfterTheOther, NotAfter;
    if |events| > EVENT_MAX_SIZE {
      DropFirstTimes(events, c.now.first);
      AppendTimes(events[1..], c);
    } else {
      AppendTimes(events, c);
    }
  }

  /** In every log a record is over before the next one appears. */
  lemma {:induction false} LogTimes(calls: seq<Call>)
    requires ClockForward(calls)
    ensures OneAfterTheOther(Log(calls))
    ensures calls != [] ==> NotAfter(Log(calls), calls[|calls| - 1].now.second)
  {
    if calls != [] {
      hide Record, OneAfterTheOther;
      var front := calls[..|calls| - 1];
      assert forall i | 0 <= i < |front| :: front[i] == calls[i];
      LogTimes(front);
      var c := calls[|calls| - 1];
      if front != [] {
        assert front[|front| - 1].now.second <= c.now.first;
      }
      assert NotAfter(Log(front), c.now.first);
      RecordTimes(Log(front), c);
    } else {
      assert Log(calls) == [];
    }
  }

  /** A record that appeared no later than it last changed. */
  ghost predicate InOrder(events: seq<Event>) {
    forall i | 0 <= i < |events| :: events[i].firstAppearTime <= events[i].lastTransitionTime
  }

  /** The call appends a record for a new code behind an older one. */
  predicate OpensRecord(events: seq<Event>, code: int) {
    events != [] && events[|events| - 1].code != code
  }

  /**
    A call keeps "appeared no later than last changed" exactly when it does not open a record behind another,
    or its two clock readings are equal: a new record takes its last change from the earlier reading.
   */
  lemma RecordInOrderIff(events: seq<Event>, c: Call)
    requires InOrder(events) && NotAfter(events, c.now.first) && c.now.first <= c.now.second
    ensures InOrder(Record(events, c)) <==> !OpensRecord(events, c.code) || c.now.first == c.now.second
  {
    var kept := if |events| > EVENT_MAX_SIZE then events[1..] else events;
    assert events != [] ==> kept != [] && kept[|kept| - 1] == events[|events| - 1];
    var r := Record(events, c);
    if OpensRecord(events, c.code) {
      assert r[|r| - 1] == Event(c.status, c.now.second, c.now.first, c.msg, c.code);
      assert forall i | 0 <= i < |kept| :: r[i] == kept[i];
    }
  }

  /** With one reading per call every record of every log is in order. */
  lemma {:induction false} LogInOrder(calls: seq<Call>)
    requires ClockForward(calls) && forall i | 0 <= i < |calls| :: calls[i].now.first == calls[i].now.second
    ensures InOrder(Log(calls))
  {
    if calls != [] {
      var front := calls[..|calls| - 1];
      assert forall i | 0 <= i < |front| :: front[i] == calls[i];
      LogInOrder(front);
      LogTimes(front);
      if front != [] {
        assert front[|front| - 1].now.second <= calls[|calls| - 1].now.first;
      }
      RecordInOrderIff(Log(front), calls[|calls| - 1]);
    }
  }

  /** With a clock that ticks between its two readings, the very first failure already leaves a record out of order. */
  lemma TickShows(t: int)
    ensures var calls := [Call(-1, "", false, Clock(t, t)), Call(200, "", true, Clock(t, t + 1))];
      ClockForward(calls) && !InOrder(Log(calls))
  {
    var calls := [Call(-1, "", false, Clock(t, t)), Call(200, "", true, Clock(t, t + 1))];
    assert calls[..1] == [calls[0]] && [calls[0]][..0] == [];
    assert Log([calls[0]]) == [Event(false, t, t, "", -1)];
    assert Log(calls)[1].firstAppearTime == t + 1;
  }

  /** A record only ever claims success for the success code, if the calls do. */
  lemma {:induction false} StatusMeansSuccess(calls: seq<Call>)
    requires forall i | 0 <= i < |calls| && calls[i].status :: calls[i].code == CODE_NORMAL
    ensures forall i | 0 <= i < |Log(calls)| && Log(calls)[i].status :: Log(calls)[i].code == CODE_NORMAL
  {
    if calls != [] {
      var front := calls[..|calls| - 1];
      assert forall i | 0 <= i < |front| :: front[i] == calls[i];
      StatusMeansSuccess(front);
    }
  }
}
