/**
 * The scale run as far as its artifact goes: creating servers appends to the
 * log, saving replaces the snapshot and then removes the log, and any of these
 * steps may be the last one before a crash.
 */
module ScaleRun {
  import opened Wrappers
  import opened Records
  import opened Sorting
  import opened Artifact

  function Text(wal: Option<string>): string {
    if wal.Some? then wal.value else ""
  }

  /** What a reader recovers from snapshot and log; `None` where loading raises. */
  function Recovered(codec: Codec, snapshot: State, wal: Option<string>): Option<State> {
    var records := Decoded(codec, Lines(Text(wal)));
    if records.None? then None else Replay(snapshot, records.value)
  }

  // ---- loading ---------------------------------------------------------------------------------

  /** The dictionary that `load_cleanup_artifact` fills. */
  class LoadedArtifact {
    var servers: seq<Uuid>
    var submitted: map<Uuid, Time>
    var accepted: map<Uuid, Time>
    var latencies: map<Uuid, Time>
    var names: map<Uuid, string>

    constructor (s: State)
      ensures Value() == s
    {
      servers, submitted, accepted, latencies, names := s.servers, s.submitted, s.accepted, s.latencies, s.names;
    }

    function Value(): State
      reads this
    {
      State(servers, submitted, accepted, latencies, names)
    }

    /** `apply_artifact_record`: extends the dictionary in place, or raises half way. */
    method ApplyRecord(c: Created) returns (ok: bool)
      modifies this
      ensures ok <==> Applied(old(Value()), c).Some?
      ensures ok ==> Value() == Applied(old(Value()), c).value
    {
      if c.accepted < c.submitted || c.latency < 0 {
        return false;
      }
      if c.server !in servers {
        servers := servers + [c.server];
      }
      if c.server in submitted && submitted[c.server] != c.submitted {
        return false;
      }
      submitted := submitted[c.server := c.submitted];
      if c.server in accepted && accepted[c.server] != c.accepted {
        return false;
      }
      accepted := accepted[c.server := c.accepted];
      if c.server in latencies && latencies[c.server] != c.latency {
        return false;
      }
      latencies := latencies[c.server := c.latency];
      if c.name != "" {
        if c.server in names && names[c.server] != c.name {
          return false;
        }
        if exists u | u in names :: u != c.server && names[u] == c.name {
          return false;
        }
        names := names[c.server := c.name];
      }
      ok := true;
    }
  }

  method FindLineEnd(text: string) returns (n: nat)
    ensures n == LineEnd(text)
  {
    n := 0;
    while n < |text| && text[n] != '\n'
      invariant 0 <= n <= |text| && forall i | 0 <= i < n :: text[i] != '\n'
    {
      n := n + 1;
    }
    LineEndIs(text, n);
  }

  lemma OneLineOn(lines: seq<string>, rest: string, n: nat)
    requires n < |rest| && rest[n] == '\n' && forall i | 0 <= i < n :: rest[i] != '\n'
    ensures (lines + [rest[..n + 1]]) + Lines(rest[n + 1..]) == lines + Lines(rest)
  {
    var more := Lines(rest[n + 1..]);
    FirstOfLines(rest, n);
    Regrouped(lines, [rest[..n + 1]], more);
  }

  lemma FirstOfLines(rest: string, n: nat)
    requires n < |rest| && rest[n] == '\n' && forall i | 0 <= i < n :: rest[i] != '\n'
    ensures Lines(rest) == [rest[..n + 1]] + Lines(rest[n + 1..])
  {
    var x, tail := rest[..n], rest[n + 1..];
    assert rest == x + "\n" + tail && rest[..n + 1] == x + "\n";
    FirstLine(x, tail);
  }

  lemma Regrouped<T>(a: seq<T>, b: seq<T>, c: seq<T>)
    ensures (a + b) + c == a + (b + c)
  {
  }

  /** `readlines`. */
  method ReadLines(text: string) returns (lines: seq<string>)
    ensures lines == Lines(text)
  {
    lines := [];
    var rest := text;
    while rest != ""
      invariant lines + Lines(rest) == Lines(text)
      decreases |rest|
    {
      var n := FindLineEnd(rest);
      if n == |rest| {
        assert Lines(rest) == [rest];
        return lines + [rest];
      }
      OneLineOn(lines, rest, n);
      lines := lines + [rest[..n + 1]];
      rest := rest[n + 1..];
    }
  }

  predicate AllDistinct(s: seq<Uuid>) {
    forall i, j | 0 <= i < j < |s| :: s[i] != s[j]
  }

  /** `load_cleanup_artifact`: succeeds exactly when the log can be recovered into distinct servers. */
  method LoadCleanupArtifact(codec: Codec, snapshot: State, wal: Option<string>) returns (r: Option<State>)
    ensures r == (if Recovered(codec, snapshot, wal).Some? && Distinct(Recovered(codec, snapshot, wal).value.servers)
                  then Recovered(codec, snapshot, wal) else None)
  {
    var value := new LoadedArtifact(snapshot);
    var lines := ReadLines(Text(wal));
    ghost var done: seq<Created> := [];
    assert lines[0..] == lines;
    PrependedNothing(Decoded(codec, lines));
    for i := 0 to |lines|
      invariant Replay(snapshot, done) == Some(value.Value())
      invariant Decoded(codec, lines) == Prepended(done, Decoded(codec, lines[i..]))
    {
      var line := lines[i];
      assert lines[i..][1..] == lines[i + 1..];
      if Terminated(line) {
        var c := codec.decode(line[..|line| - 1]);
        if c.None? {
          return None;
        }
        ReplayAppend(snapshot, done, c.value);
        var ok := value.ApplyRecord(c.value);
        if !ok {
          ReplayStops(snapshot, done, c.value, Decoded(codec, lines[i + 1..]));
          PrependedOn(done, c.value, Decoded(codec, lines[i + 1..]));
          return None;
        }
        PrependedOn(done, c.value, Decoded(codec, lines[i + 1..]));
        done := done + [c.value];
      }
    }
    assert lines[|lines|..] == [];
    assert done + [] == done;
    r := if AllDistinct(value.servers) then Some(value.Value()) else None;
  }

  ghost function Prepended(done: seq<Created>, rest: Option<seq<Created>>): Option<seq<Created>> {
    if rest.None? then None else Some(done + rest.value)
  }

  lemma PrependedNothing(rest: Option<seq<Created>>)
    ensures Prepended([], rest) == rest
  {
    if rest.Some? {
      assert [] + rest.value == rest.value;
    }
  }

  lemma PrependedOn(done: seq<Created>, c: Created, rest: Option<seq<Created>>)
    ensures Prepended(done, if rest.None? then None else Some([c] + rest.value)) == Prepended(done + [c], rest)
  {
    if rest.Some? {
      assert done + ([c] + rest.value) == done + [c] + rest.value;
    }
  }

  /** A log that fails at one record fails with whatever follows. */
  lemma {:induction false} ReplayFails(s: State, log: seq<Created>, more: seq<Created>)
    requires Replay(s, log).None?
    ensures Replay(s, log + more).None?
  {
    if more == [] {
      assert log + more == log;
    } else {
      ReplayFails(s, log, more[..|more| - 1]);
      assert log + more == (log + more[..|more| - 1]) + [more[|more| - 1]];
      ReplayAppend(s, log + more[..|more| - 1], more[|more| - 1]);
    }
  }

  lemma ReplayStops(s: State, done: seq<Created>, c: Created, rest: Option<seq<Created>>)
    requires Replay(s, done + [c]).None?
    ensures rest.Some? ==> Replay(s, (done + [c]) + rest.value).None?
  {
    if rest.Some? {
      ReplayFails(s, done + [c], rest.value);
    }
  }

  // ---- the run ----------------------------------------------------------------------------------

  /** Names and times are kept for recorded servers only. */
  ghost predicate Owned(s: State) {
    && Distinct(s.servers)
    && (forall u | u in s.submitted || u in s.accepted || u in s.latencies || u in s.names :: u in s.servers)
  }

  /** What `create_one` adds to its own dictionaries. */
  function WithCreated(s: State, c: Created): State {
    State(s.servers + [c.server], s.submitted[c.server := c.submitted], s.accepted[c.server := c.accepted],
          s.latencies[c.server := c.latency],
          if c.name != "" then s.names[c.server := c.name] else s.names)
  }

  predicate NewHere(s: State, c: Created) {
    c.server !in s.servers && (c.name != "" ==> forall u | u in s.names :: s.names[u] != c.name)
  }

  /** For a new server, journalling and replaying agrees with the run's own bookkeeping. */
  lemma CreatedApplies(s: State, c: Created)
    requires Owned(s) && NewHere(s, c)
    ensures Applied(s, c) == if TimingOk(c) then Some(WithCreated(s, c)) else None
    ensures Owned(WithCreated(s, c))
  {
  }

  // ---- what one state knows of another --------------------------------------------------------

  /** Everything that `s` records, `t` records too. */
  ghost predicate Below(s: State, t: State) {
    && (forall u | u in s.servers :: u in t.servers)
    && (forall u | u in s.submitted :: u in t.submitted && t.submitted[u] == s.submitted[u])
    && (forall u | u in s.accepted :: u in t.accepted && t.accepted[u] == s.accepted[u])
    && (forall u | u in s.latencies :: u in t.latencies && t.latencies[u] == s.latencies[u])
    && (forall u | u in s.names :: u in t.names && t.names[u] == s.names[u])
  }

  /** What a larger state has absorbed applies to a smaller one without leaving the larger one. */
  lemma AbsorbedBelow(s: State, t: State, c: Created)
    requires Below(s, t) && Absorbed(t, c)
    ensures Applied(s, c).Some? && Below(s, Applied(s, c).value) && Below(Applied(s, c).value, t)
  {
    if c.name != "" {
      assert t.names[c.server] == c.name;
    }
  }

  lemma {:induction false} AbsorbedLogBelow(s: State, t: State, log: seq<Created>)
    requires Below(s, t) && forall c | c in log :: Absorbed(t, c)
    ensures Replay(s, log).Some? && Below(s, Replay(s, log).value) && Below(Replay(s, log).value, t)
  {
    if log != [] {
      var n := |log| - 1;
      assert log == log[..n] + [log[n]];
      AbsorbedLogBelow(s, t, log[..n]);
      AbsorbedBelow(Replay(s, log[..n]).value, t, log[n]);
    }
  }

  lemma {:induction false} ReplayOwned(s: State, log: seq<Created>)
    requires Owned(s) && Replay(s, log).Some?
    ensures Owned(Replay(s, log).value)
    ensures forall u | u in Replay(s, log).value.servers :: u in s.servers || exists c :: c in log && c.server == u
  {
    if log != [] {
      var n := |log| - 1;
      assert log == log[..n] + [log[n]];
      ReplayOwned(s, log[..n]);
      AppliedOwned(Replay(s, log[..n]).value, log[n]);
    }
  }

  lemma AppliedOwned(s: State, c: Created)
    requires Owned(s) && Applied(s, c).Some?
    ensures Owned(Applied(s, c).value)
    ensures forall u | u in Applied(s, c).value.servers :: u in s.servers || u == c.server
  {
  }

  /** A server that the run just made is below whatever its journal line makes of the disk. */
  lemma CreatedBelow(mem: State, disk: State, c: Created)
    requires Owned(mem) && c.server !in mem.servers && Below(mem, disk) && Applied(disk, c).Some?
    ensures Below(WithCreated(mem, c), Applied(disk, c).value) && Below(mem, Applied(disk, c).value)
  {
  }

  datatype Creation = Made | Refused | AppendFailed

  ghost predicate HealthyAt(codec: Codec, mem: State, snapshot: State, history: seq<Append>) {
    && (forall i | 0 <= i < |history| :: Complete(codec, history[i]))
    && Replay(snapshot, Finished(codec, history)) == Some(mem)
  }

  ghost predicate IntactAt(codec: Codec, mem: State, snapshot: State, history: seq<Append>) {
    var disk := Replay(snapshot, Finished(codec, history));
    && Owned(snapshot) && (forall u | u in snapshot.servers :: u in mem.servers)
    && disk.Some? && Owned(disk.value) && Below(mem, disk.value)
  }

  class Run {
    const codec: Codec
    var mem: State
    var snapshot: State
    var wal: Option<string>
    ghost var history: seq<Append>
    /** Writes and syncs that failed, and crashes. */
    ghost var faults: nat

    ghost predicate Valid()
      reads this
    {
      CodecOk(codec) && Owned(mem) && Text(wal) == Content(codec, history)
    }

    /** Every append since the last save finished, and the disk tells exactly what the run knows. */
    ghost predicate Healthy()
      reads this
    {
      Valid() && HealthyAt(codec, mem, snapshot, history)
    }

    /** What snapshot and finished lines say, whether or not the log can be read. */
    ghost function Disk(): Option<State>
      reads this
    {
      Replay(snapshot, Finished(codec, history))
    }

    /** The disk tells at least all that the run knows, and nothing that was not saved or journalled whole. */
    ghost predicate Intact()
      reads this
    {
      Valid() && IntactAt(codec, mem, snapshot, history)
    }

    /**
     * A crash at this moment. The artifact can be loaded if and only if no
     * unfinished line precedes a finished one; then every server that the run
     * journalled is loaded exactly once, with its data, and every server that is
     * loaded was journalled whole or saved.
     */
    lemma CrashRecovers()
      requires Intact()
      ensures Recovered(codec, snapshot, wal).Some? <==> TearsLast(codec, history)
      ensures TearsLast(codec, history) ==>
        var loaded := Recovered(codec, snapshot, wal).value;
        && Distinct(loaded.servers) && Below(mem, loaded)
        && forall u | u in loaded.servers ::
             u in mem.servers || exists c :: c in Finished(codec, history) && c.server == u
    {
      LogReadableExactly(codec, history);
      ReplayOwned(snapshot, Finished(codec, history));
    }

    constructor (codec: Codec, start: State)
      requires CodecOk(codec) && Owned(start)
      ensures Intact() && history == []
      ensures Healthy() && this.codec == codec && mem == start && snapshot == start && wal == None
    {
      this.codec := codec;
      mem, snapshot, wal, history, faults := start, start, None, [], 0;
    }

    /** A healthy disk recovers to exactly the state in memory. */
    lemma HealthyRecovers()
      requires Healthy()
      ensures Recovered(codec, snapshot, wal) == Some(mem)
    {
      LogReadableExactly(codec, history);
    }

    /** `append_json_record`: the line may reach the file in pieces, and not all of them. */
    method AppendJsonRecord(c: Created) returns (ok: bool)
      requires Valid()
      modifies this`wal, this`history, this`faults
      ensures Valid() && faults >= old(faults) && (faults == old(faults) ==> ok)
      ensures exists cut: nat :: history == old(history) + [Append(c, cut)] && (ok ==> Complete(codec, Append(c, cut)))
    {
      var encoded := LineOf(codec, c);
      ghost var before := history;
      var text := Text(wal);
      var written := 0;
      var fails := false;
      wal, history := Some(text + encoded[..0]), before + [Append(c, 0)];
      while written < |encoded| && !fails
        invariant 0 <= written <= |encoded| && history == before + [Append(c, written)] && faults == old(faults)
        invariant wal == Some(text + encoded[..written])
        decreases |encoded| - written, !fails
      {
        fails := *;
        if !fails {
          var n: nat :| 0 < n <= |encoded| - written;
          assert text + encoded[..written + n] == text + encoded[..written] + encoded[written..written + n];
          wal := Some(wal.value + encoded[written..written + n]);
          written := written + n;
          history := before + [Append(c, written)];
        }
      }
      AppendedContent(codec, before, Append(c, written));
      var synced: bool := *;
      ok := !fails && synced;
      if !ok {
        faults := faults + 1;
      }
      assert history == before + [Append(c, written)];
    }

    /**
     * The journalling part of `create_one`. On a healthy run a journalled server
     * is recoverable from then on; a failed append leaves a disk that recovers
     * to the run's state, with the new server if its line was whole. After an
     * append that stopped inside its line, a later journalled server makes the
     * log unreadable.
     */
    method CreateOne(c: Created) returns (r: Creation)
      requires Valid()
      modifies this`mem, this`wal, this`history, this`faults
      ensures Valid() && faults >= old(faults) && (faults == old(faults) ==> !r.AppendFailed?)
      ensures r.Refused? <==> !NewHere(old(mem), c)
      ensures r.Refused? ==> mem == old(mem) && wal == old(wal) && history == old(history)
      ensures r.Made? ==> mem == WithCreated(old(mem), c)
      ensures r.AppendFailed? ==> mem == old(mem)
      ensures r.Made? && old(Healthy()) ==> (Healthy() <==> TimingOk(c))
      ensures r.Made? && old(Healthy()) && !TimingOk(c) ==> Recovered(codec, snapshot, wal).None?
      ensures r.AppendFailed? && old(Healthy()) && TimingOk(c) ==>
        Recovered(codec, snapshot, wal) in {Some(mem), Some(WithCreated(mem, c))}
      ensures r.Made? ==> |history| == |old(history)| + 1 && Complete(codec, history[|old(history)|])
      ensures !r.Refused? ==> |history| == |old(history)| + 1 && history[..|old(history)|] == old(history)
                              && history[|old(history)|].record == c
      ensures old(Intact()) && Applied(old(Disk()).value, c).Some? ==> Intact()
      ensures old(Intact()) && r.Made? && Applied(old(Disk()).value, c).None? ==> Recovered(codec, snapshot, wal).None?
      ensures r.Made? && (exists i | 0 <= i < |old(history)| :: Torn(codec, old(history)[i])) ==>
        Recovered(codec, snapshot, wal).None?
    {
      if !NewHere(mem, c) {
        return Refused;
      }
      ghost var before := history;
      var ok := AppendJsonRecord(c);
      ghost var cut: nat :| history == before + [Append(c, cut)] && (ok ==> Complete(codec, Append(c, cut)));
      HealthyConcludes(codec, snapshot, wal, before, Append(c, cut), mem, ok);
      IntactConcludes(codec, snapshot, wal, before, Append(c, cut), mem, ok);
      if !ok {
        return AppendFailed;
      }
      mem := WithCreated(mem, c);
      r := Made;
    }

    /**
     * `_save_locked`: replace the snapshot, then remove the log. A crash between
     * the two replays a log that the snapshot has already absorbed.
     */
    method Save() returns (steps: nat)
      requires Valid()
      modifies this`snapshot, this`wal, this`history, this`faults
      ensures Valid() && steps <= 2 && faults >= old(faults) && (faults == old(faults) ==> steps == 2)
      ensures steps == 0 ==> snapshot == old(snapshot) && wal == old(wal) && history == old(history)
      ensures steps >= 1 ==> snapshot == mem
      ensures old(Healthy()) || steps == 2 ==> Healthy()
      ensures old(Intact()) || steps == 2 ==> Intact()
      ensures steps == 2 ==> wal == None
    {
      var crash: nat := *;
      if crash == 0 {
        faults := faults + 1;
        return 0;
      }
      SavedKeeps(codec, mem, snapshot, history);
      snapshot := mem;
      if crash == 1 {
        faults := faults + 1;
        return 1;
      }
      wal, history := None, [];
      steps := 2;
    }

    /**
     * Any number of creations and saves, whatever fails in between and wherever
     * the run stops. While every record handed in applies to what the disk says
     * (`sound`), a crash loses nothing exactly when no unfinished line precedes
     * a finished one.
     */
    method Campaign() returns (ghost sound: bool)
      requires Intact()
      modifies this
      ensures Valid() && (sound ==> Intact())
      ensures sound ==> (Recovered(codec, snapshot, wal).Some? <==> TearsLast(codec, history))
      ensures sound && TearsLast(codec, history) ==> Below(mem, Recovered(codec, snapshot, wal).value)
    {
      sound := true;
      var rounds: nat := *;
      while rounds > 0
        invariant Valid() && (sound ==> Intact())
      {
        var saves: bool := *;
        if saves {
          var steps := Save();
        } else {
          var c: Created := *;
          sound := sound && Applied(Disk().value, c).Some?;
          var made := CreateOne(c);
        }
        rounds := rounds - 1;
      }
      if sound {
        CrashRecovers();
      }
    }
  }

  lemma {:induction false} AppendedContent(codec: Codec, history: seq<Append>, a: Append)
    requires a.cut <= |LineOf(codec, a.record)|
    ensures Content(codec, history + [a]) == Content(codec, history) + LineOf(codec, a.record)[..a.cut]
    decreases |history|
  {
    if history == [] {
      assert [a][1..] == [];
      assert Written(codec, a) + "" == Written(codec, a);
      assert LineOf(codec, a.record)[..|LineOf(codec, a.record)|] == LineOf(codec, a.record);
    } else {
      assert (history + [a])[1..] == history[1..] + [a];
      AppendedContent(codec, history[1..], a);
    }
  }

  lemma {:induction false} FinishedAppend(codec: Codec, history: seq<Append>, a: Append)
    ensures Finished(codec, history + [a]) ==
            Finished(codec, history) + (if Complete(codec, a) then [a.record] else [])
    decreases |history|
  {
    if history != [] {
      assert (history + [a])[1..] == history[1..] + [a];
      FinishedAppend(codec, history[1..], a);
    } else {
      assert [a][1..] == [];
    }
  }

  /** One more append behind finished ones: readable, and it adds its record when it is whole. */
  lemma OneMoreAppend(codec: Codec, snapshot: State, history: seq<Append>, a: Append, state: State)
    requires CodecOk(codec) && forall i | 0 <= i < |history| :: Complete(codec, history[i])
    requires Replay(snapshot, Finished(codec, history)) == Some(state)
    ensures TearsLast(codec, history + [a])
    ensures Replay(snapshot, Finished(codec, history + [a])) ==
            if Complete(codec, a) then Applied(state, a.record) else Some(state)
    ensures Complete(codec, a) ==>
              forall i | 0 <= i < |history + [a]| :: Complete(codec, (history + [a])[i])
  {
    FinishedAppend(codec, history, a);
    if Complete(codec, a) {
      ReplayAppend(snapshot, Finished(codec, history), a.record);
    } else {
      assert Finished(codec, history) + [] == Finished(codec, history);
    }
  }

  /** One more append, whole or not, and what it makes of the disk. */
  lemma DiskGoesOn(
      codec: Codec, snapshot: State, wal: Option<string>, history: seq<Append>, a: Append, mem: State)
    requires CodecOk(codec) && Owned(mem) && a.record.server !in mem.servers
    requires Text(wal) == Content(codec, history + [a])
    requires Owned(snapshot) && Replay(snapshot, Finished(codec, history)).Some?
    requires Below(mem, Replay(snapshot, Finished(codec, history)).value)
    ensures var disk := Replay(snapshot, Finished(codec, history)).value;
      var disk' := Replay(snapshot, Finished(codec, history + [a]));
      && (if Complete(codec, a) then disk' == Applied(disk, a.record) else disk' == Some(disk))
      && (disk'.Some? ==> Owned(disk'.value) && Below(mem, disk'.value))
      && (disk'.Some? && Complete(codec, a) ==> Below(WithCreated(mem, a.record), disk'.value))
      && (disk'.None? ==> Recovered(codec, snapshot, wal).None?)
  {
    var disk := Replay(snapshot, Finished(codec, history)).value;
    FinishedAppend(codec, history, a);
    LogReadableExactly(codec, history + [a]);
    if Complete(codec, a) {
      ReplayAppend(snapshot, Finished(codec, history), a.record);
      if Applied(disk, a.record).Some? {
        CreatedBelow(mem, disk, a.record);
      }
    } else {
      assert Finished(codec, history) + [] == Finished(codec, history);
    }
    if Replay(snapshot, Finished(codec, history + [a])).Some? {
      ReplayOwned(snapshot, Finished(codec, history + [a]));
    }
  }

  /** One more append on a healthy run, for a server that was made or not. */
  lemma HealthyConcludes(
      codec: Codec, snapshot: State, wal: Option<string>, before: seq<Append>, a: Append, mem: State, made: bool)
    requires CodecOk(codec) && Owned(mem) && NewHere(mem, a.record) && (made ==> Complete(codec, a))
    requires Text(wal) == Content(codec, before + [a])
    ensures Owned(WithCreated(mem, a.record))
    ensures HealthyAt(codec, mem, snapshot, before) && made ==>
      && (HealthyAt(codec, WithCreated(mem, a.record), snapshot, before + [a]) <==> TimingOk(a.record))
      && (!TimingOk(a.record) ==> Recovered(codec, snapshot, wal).None?)
    ensures HealthyAt(codec, mem, snapshot, before) && TimingOk(a.record) ==>
      Recovered(codec, snapshot, wal) in {Some(mem), Some(WithCreated(mem, a.record))}
    ensures made && (exists i | 0 <= i < |before| :: Torn(codec, before[i])) ==> Recovered(codec, snapshot, wal).None?
  {
    CreatedApplies(mem, a.record);
    AppendConcludes(codec, snapshot, wal, before, a, mem);
  }

  /** One more append on an intact run. */
  lemma IntactConcludes(
      codec: Codec, snapshot: State, wal: Option<string>, before: seq<Append>, a: Append, mem: State, made: bool)
    requires CodecOk(codec) && Owned(mem) && NewHere(mem, a.record) && (made ==> Complete(codec, a))
    requires Text(wal) == Content(codec, before + [a])
    ensures IntactAt(codec, mem, snapshot, before) ==>
      var applied := Applied(Replay(snapshot, Finished(codec, before)).value, a.record);
      && (applied.Some? ==> IntactAt(codec, if made then WithCreated(mem, a.record) else mem, snapshot, before + [a]))
      && (applied.None? && made ==> Recovered(codec, snapshot, wal).None?)
  {
    if IntactAt(codec, mem, snapshot, before) {
      DiskGoesOn(codec, snapshot, wal, before, a, mem);
    }
  }

  /** A snapshot of the run's state may take the older one's place, with the log or without it. */
  lemma SavedKeeps(codec: Codec, mem: State, snapshot: State, history: seq<Append>)
    requires Owned(mem)
    ensures HealthyAt(codec, mem, snapshot, history) ==> HealthyAt(codec, mem, mem, history)
    ensures IntactAt(codec, mem, snapshot, history) ==> IntactAt(codec, mem, mem, history)
    ensures HealthyAt(codec, mem, mem, []) && IntactAt(codec, mem, mem, [])
  {
    if IntactAt(codec, mem, snapshot, history) {
      SavedBelow(codec, snapshot, history, mem);
    }
    if HealthyAt(codec, mem, snapshot, history) {
      ReplayTwice(snapshot, Finished(codec, history));
    }
  }

  /** With the snapshot replaced and the log still there, the log adds only what the run does not know. */
  lemma SavedBelow(codec: Codec, snapshot: State, history: seq<Append>, mem: State)
    requires Owned(mem) && Replay(snapshot, Finished(codec, history)).Some?
    requires Below(mem, Replay(snapshot, Finished(codec, history)).value)
    ensures Replay(mem, Finished(codec, history)).Some?
    ensures Owned(Replay(mem, Finished(codec, history)).value)
    ensures Below(mem, Replay(mem, Finished(codec, history)).value)
  {
    var log := Finished(codec, history);
    var disk := Replay(snapshot, log).value;
    forall c | c in log ensures Absorbed(disk, c) {
      ReplayAbsorbs(snapshot, log, c);
    }
    AbsorbedLogBelow(mem, disk, log);
    ReplayOwned(mem, log);
  }

  /** What one more append means for recovery. */
  lemma AppendConcludes(
      codec: Codec, snapshot: State, wal: Option<string>, history: seq<Append>, a: Append, state: State)
    requires CodecOk(codec) && Text(wal) == Content(codec, history + [a])
    ensures (forall i | 0 <= i < |history| :: Complete(codec, history[i]))
            && Replay(snapshot, Finished(codec, history)) == Some(state) ==>
      && Replay(snapshot, Finished(codec, history + [a])) ==
           (if Complete(codec, a) then Applied(state, a.record) else Some(state))
      && Recovered(codec, snapshot, wal) == Replay(snapshot, Finished(codec, history + [a]))
      && (Complete(codec, a) ==> forall i | 0 <= i < |history + [a]| :: Complete(codec, (history + [a])[i]))
    ensures (exists i | 0 <= i < |history| :: Torn(codec, history[i])) && Complete(codec, a) ==>
      Recovered(codec, snapshot, wal).None?
  {
    LogReadableExactly(codec, history + [a]);
    if (forall i | 0 <= i < |history| :: Complete(codec, history[i]))
       && Replay(snapshot, Finished(codec, history)) == Some(state) {
      OneMoreAppend(codec, snapshot, history, a, state);
    }
    if (exists i | 0 <= i < |history| :: Torn(codec, history[i])) && Complete(codec, a) {
      var i :| 0 <= i < |history| && Torn(codec, history[i]);
      assert (history + [a])[i] == history[i] && (history + [a])[|history|] == a;
    }
  }
}
