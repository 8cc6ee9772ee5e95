/** The flowRate table of DataManager: an append-only log of readings, and the two queries the control unit asks. */
module FlowLog {
  import opened Wrappers

  datatype Row = Row(id: int, channel: string, time: int, value: real)

  const INFLOW := "inflow"

  type Log = seq<Row>

  /** AUTO_INCREMENT: ids grow with every insertion (failed ones may leave holes). */
  predicate Ordered(log: Log) { forall i, j | 0 <= i < j < |log| :: log[i].id < log[j].id }

  // The aggregate query: sum(value) over the rows whose id is the greatest of their channel, inflow apart.

  predicate IsNewest(log: Log, r: Row) {
    r.channel != INFLOW && forall i | 0 <= i < |log| && log[i].channel == r.channel :: log[i].id <= r.id
  }

  function SumNewest(log: Log, rows: Log): real {
    if rows == [] then 0.0
    else
      var r := rows[|rows| - 1];
      SumNewest(log, rows[..|rows| - 1]) + (if IsNewest(log, r) then r.value else 0.0)
  }

  /** retrieveOutFlowRate; None where the query has no row to sum and the caller meets a null. */
  function OutFlowRate(log: Log): Option<real> {
    if forall i | 0 <= i < |log| :: log[i].channel == INFLOW then None else Some(SumNewest(log, log))
  }

  // The simple reading: remember the latest value of each outflow channel, and add them up.

  function Latest(log: Log): map<string, real> {
    if log == [] then map[] else Remember(Latest(log[..|log| - 1]), log[|log| - 1])
  }

  function Remember(m: map<string, real>, r: Row): map<string, real> {
    if r.channel == INFLOW then m else m[r.channel := r.value]
  }

  /** The map holds, for each outflow channel of the log, the value of its last row. */
  lemma {:induction false} LatestMeaning(log: Log, c: string)
    ensures c in Latest(log) <==> c != INFLOW && exists i | 0 <= i < |log| :: log[i].channel == c
    ensures forall i | 0 <= i < |log| && log[i].channel == c != INFLOW && (forall j | i < j < |log| :: log[j].channel != c) ::
              Latest(log)[c] == log[i].value
  {
    if log != [] {
      var n := |log| - 1;
      LatestMeaning(log[..n], c);
      assert forall i | 0 <= i < n :: log[..n][i] == log[i];
      if c in Latest(log[..n]) {
        var i :| 0 <= i < n && log[..n][i].channel == c;
        assert log[i].channel == c;
      }
    }
  }

  ghost function SumValues(m: map<string, real>): real {
    if m == map[] then 0.0
    else
      var k :| k in m;
      m[k] + SumValues(m - {k})
  }

  lemma {:induction false} SumValuesTakesOut(m: map<string, real>, k: string)
    requires k in m
    ensures SumValues(m) == m[k] + SumValues(m - {k})
    decreases |m|
  {
    var c :| c in m && SumValues(m) == m[c] + SumValues(m - {c});
    if c != k {
      SumValuesTakesOut(m - {c}, k);
      SumValuesTakesOut(m - {k}, c);
      assert m - {c} - {k} == m - {k} - {c};
    }
  }

  lemma SumValuesUpdate(m: map<string, real>, k: string, v: real)
    ensures SumValues(m[k := v]) == SumValues(m - {k}) + v
  {
    SumValuesTakesOut(m[k := v], k);
    assert m[k := v] - {k} == m - {k};
  }

  /** Rows that keep their rank keep their share of the sum. */
  lemma {:induction false} SumNewestSame(log1: Log, log2: Log, rows: Log)
    requires forall i | 0 <= i < |rows| :: IsNewest(log1, rows[i]) == IsNewest(log2, rows[i])
    ensures SumNewest(log1, rows) == SumNewest(log2, rows)
  {
    if rows != [] {
      SumNewestSame(log1, log2, rows[..|rows| - 1]);
    }
  }

  function Without(log: Log, c: string): Log {
    if log == [] then []
    else
      var rest := Without(log[..|log| - 1], c);
      if log[|log| - 1].channel == c then rest else rest + [log[|log| - 1]]
  }

  lemma {:induction false} WithoutMembers(log: Log, c: string)
    ensures forall r :: r in Without(log, c) <==> r in log && r.channel != c
  {
    if log != [] {
      var init := log[..|log| - 1];
      WithoutMembers(init, c);
      assert log == init + [log[|log| - 1]];
    }
  }

  lemma {:induction false} WithoutOrdered(log: Log, c: string)
    requires Ordered(log)
    ensures Ordered(Without(log, c))
  {
    if log != [] {
      var init, last := log[..|log| - 1], log[|log| - 1];
      WithoutOrdered(init, c);
      WithoutMembers(init, c);
      OrderedSnoc(Without(init, c), last);
    }
  }

  lemma OrderedSnoc(log: Log, r: Row)
    requires Ordered(log) && forall x | x in log :: x.id < r.id
    ensures Ordered(log + [r])
  {
    assert forall i | 0 <= i < |log| :: log[i] in log;
  }

  lemma WithoutFacts(log: Log, c: string)
    ensures forall r :: r in Without(log, c) <==> r in log && r.channel != c
    ensures Ordered(log) ==> Ordered(Without(log, c))
  {
    WithoutMembers(log, c);
    if Ordered(log) { WithoutOrdered(log, c); }
  }

  lemma RememberWithout(m: map<string, real>, r: Row, c: string)
    ensures Remember(m, r) - {c} == if r.channel == c then m - {c} else Remember(m - {c}, r)
  {
  }

  /** Dropping a channel from the log drops its entry from the map. */
  lemma {:induction false} LatestWithout(log: Log, c: string)
    ensures Latest(Without(log, c)) == Latest(log) - {c}
  {
    if log != [] {
      var init, r := log[..|log| - 1], log[|log| - 1];
      LatestWithout(init, c);
      RememberWithout(Latest(init), r, c);
      if r.channel != c {
        assert Without(log, c)[..|Without(log, c)| - 1] == Without(init, c);
      }
    }
  }

  /** Rows of a channel that is about to be superseded count for nothing; the others count as before. */
  lemma {:induction false} SumNewestDropsChannel(log: Log, rows: Log, r: Row)
    requires r in log && forall x | x in rows :: x.id < r.id
    ensures SumNewest(log, rows) == SumNewest(log, Without(rows, r.channel))
  {
    if rows != [] {
      var init, x := rows[..|rows| - 1], rows[|rows| - 1];
      assert forall y | y in init :: y in rows;
      SumNewestDropsChannel(log, init, r);
      assert x in rows;
      if x.channel == r.channel {
        assert !IsNewest(log, x);
      } else {
        assert Without(rows, r.channel)[..|Without(rows, r.channel)| - 1] == Without(init, r.channel);
      }
    }
  }

  /** For every log the aggregate query is the sum of the latest values. */
  lemma {:induction false} AggregateIsSumOfLatest(log: Log)
    requires Ordered(log)
    ensures SumNewest(log, log) == SumValues(Latest(log))
    decreases |log|
  {
    if log != [] {
      var init, r := log[..|log| - 1], log[|log| - 1];
      var kept := Without(init, r.channel);
      WithoutFacts(init, r.channel);
      WithoutShrinks(init, r.channel);
      AggregateIsSumOfLatest(kept);
      LatestWithout(init, r.channel);
      SumNewestForgets(log);
      if r.channel == INFLOW {
        LatestMeaning(init, INFLOW);
        assert Latest(init) - {INFLOW} == Latest(init);
      } else {
        SumValuesUpdate(Latest(init), r.channel, r.value);
      }
    }
  }

  /** retrieveOutFlowRate answers with the sum over the simple map, and with nothing exactly where the map is empty. */
  lemma OutFlowRateMeaning(log: Log)
    requires Ordered(log)
    ensures OutFlowRate(log) == if Latest(log) == map[] then None else Some(SumValues(Latest(log)))
  {
    AggregateIsSumOfLatest(log);
    forall c: string
      ensures c in Latest(log) <==> c != INFLOW && exists i | 0 <= i < |log| :: log[i].channel == c
    {
      LatestMeaning(log, c);
    }
    if i :| 0 <= i < |log| && log[i].channel != INFLOW {
      assert log[i].channel in Latest(log);
    }
  }

  /** The rows before the last count as if those of its channel were gone. */
  lemma SumNewestForgets(log: Log)
    requires Ordered(log) && log != []
    ensures var r := log[|log| - 1];
            var kept := Without(log[..|log| - 1], r.channel);
            SumNewest(log, log) == SumNewest(kept, kept) + if r.channel == INFLOW then 0.0 else r.value
  {
    var init, r := log[..|log| - 1], log[|log| - 1];
    var kept := Without(init, r.channel);
    assert forall x | x in init :: x.id < r.id;
    SumNewestDropsChannel(log, init, r);
    WithoutFacts(init, r.channel);
    forall i | 0 <= i < |kept|
      ensures IsNewest(log, kept[i]) == IsNewest(kept, kept[i])
    {
      assert kept[i] in kept;
      OtherChannelsKeepRank(log, r.channel, kept[i]);
    }
    SumNewestSame(log, kept, kept);
  }

  lemma {:induction false} WithoutShrinks(log: Log, c: string)
    ensures |Without(log, c)| <= |log|
  {
    if log != [] { WithoutShrinks(log[..|log| - 1], c); }
  }

  lemma OtherChannelsKeepRank(log: Log, c: string, x: Row)
    requires log != [] && log[|log| - 1].channel == c && x.channel != c
    ensures IsNewest(log, x) == IsNewest(Without(log[..|log| - 1], c), x)
  {
    var init := log[..|log| - 1];
    var kept := Without(init, c);
    WithoutFacts(init, c);
    if IsNewest(kept, x) {
      forall i | 0 <= i < |log| && log[i].channel == x.channel
        ensures log[i].id <= x.id
      {
        assert log[i] == init[i] && log[i] in init;
        assert log[i] in kept;
      }
    }
    if IsNewest(log, x) {
      forall i | 0 <= i < |kept| && kept[i].channel == x.channel
        ensures kept[i].id <= x.id
      {
        assert kept[i] in kept && kept[i] in init && kept[i] in log;
      }
    }
  }

  /** retrieveFlowRate: a row of the channel with the greatest time; SQL leaves the choice among equal times open. */
  predicate LatestByTime(log: Log, c: string, r: Row) {
    r in log && r.channel == c && forall i | 0 <= i < |log| && log[i].channel == c :: log[i].time <= r.time
  }

  predicate LatestById(log: Log, c: string, r: Row) {
    r in log && r.channel == c && forall i | 0 <= i < |log| && log[i].channel == c :: log[i].id <= r.id
  }

  /** The channel's readings are strictly later one after another. */
  predicate Spaced(log: Log, c: string, gap: nat) {
    forall i, j | 0 <= i < j < |log| && log[i].channel == log[j].channel == c :: log[i].time + gap <= log[j].time
  }

  /** When a channel's readings are spaced the two notions of "latest" pick the same row. */
  lemma LatestByTimeIsLatestById(log: Log, c: string, gap: nat, r: Row)
    requires Ordered(log) && Spaced(log, c, gap) && gap > 0
    ensures LatestByTime(log, c, r) <==> LatestById(log, c, r)
  {
    if r in log && r.channel == c {
      var k :| 0 <= k < |log| && log[k] == r;
      forall i | 0 <= i < |log| && log[i].channel == c
        ensures log[i].time <= r.time <==> log[i].id <= r.id
      {
      }
    }
  }
}
