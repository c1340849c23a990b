/**
 * The scale run's artifact and its write-ahead log
 * (tools/openstack-incus-scale-e2e.py): what a record does to the loaded
 * state, and which logs can be read back.
 *
 * The JSON text of a record is a parameter: `Codec` states what is used of it.
 */
module Artifact {
  import opened Wrappers
  import opened Records
  import opened Sorting

  /**
   * A time is the rank of a finite floating-point value: equal and ordered as
   * the values are, with 0 for zero. No arithmetic is done on times here.
   */
  type Time = int

  /** One `server-created` record. */
  datatype Created = Created(
    server: Uuid, name: string, submitted: Time, accepted: Time, latency: Time)

  /** The part of the artifact that the log extends; an empty name is a missing one. */
  datatype State = State(
    servers: seq<Uuid>, submitted: map<Uuid, Time>, accepted: map<Uuid, Time>,
    latencies: map<Uuid, Time>, names: map<Uuid, string>)

  predicate TimingOk(c: Created) {
    c.submitted <= c.accepted && 0 <= c.latency
  }

  predicate Agrees(m: map<Uuid, Time>, u: Uuid, value: Time) {
    u in m ==> m[u] == value
  }

  predicate NameFits(names: map<Uuid, string>, c: Created) {
    c.name != "" ==>
      (c.server in names ==> names[c.server] == c.name)
      && forall u | u in names && u != c.server :: names[u] != c.name
  }

  /** `apply_artifact_record` as a function; `None` where it raises. */
  function Applied(s: State, c: Created): Option<State> {
    if !TimingOk(c) || !Agrees(s.submitted, c.server, c.submitted)
       || !Agrees(s.accepted, c.server, c.accepted) || !Agrees(s.latencies, c.server, c.latency)
       || !NameFits(s.names, c)
    then None
    else Some(State(
      if c.server in s.servers then s.servers else s.servers + [c.server],
      s.submitted[c.server := c.submitted], s.accepted[c.server := c.accepted],
      s.latencies[c.server := c.latency],
      if c.name != "" then s.names[c.server := c.name] else s.names))
  }

  /** The state already contains everything that the record says. */
  predicate Absorbed(s: State, c: Created) {
    && TimingOk(c) && c.server in s.servers
    && c.server in s.submitted && s.submitted[c.server] == c.submitted
    && c.server in s.accepted && s.accepted[c.server] == c.accepted
    && c.server in s.latencies && s.latencies[c.server] == c.latency
    && NameFits(s.names, c) && (c.name != "" ==> c.server in s.names)
  }

  lemma AbsorbedAppliesAsNothing(s: State, c: Created)
    requires Absorbed(s, c)
    ensures Applied(s, c) == Some(s)
  {
    assert s.submitted[c.server := c.submitted] == s.submitted;
    assert s.accepted[c.server := c.accepted] == s.accepted;
    assert s.latencies[c.server := c.latency] == s.latencies;
    if c.name != "" {
      assert s.names[c.server := c.name] == s.names;
    }
  }

  /** Once applied, a record stays absorbed by every later successful application. */
  lemma AppliedAbsorbs(s: State, c: Created, d: Created)
    requires Applied(s, c).Some?
    ensures Absorbed(Applied(s, c).value, c)
    ensures Absorbed(s, d) ==> Absorbed(Applied(s, c).value, d)
  {
    var s' := Applied(s, c).value;
    if Absorbed(s, d) && d.name != "" {
      forall u | u in s'.names && u != d.server ensures s'.names[u] != d.name {
        if u == c.server && c.name != "" {
          assert d.server in s.names && s.names[d.server] != c.name;
        }
      }
    }
  }

  function Replay(s: State, log: seq<Created>): Option<State> {
    if log == [] then Some(s)
    else
      var rest := Replay(s, log[..|log| - 1]);
      if rest.None? then None else Applied(rest.value, log[|log| - 1])
  }

  lemma ReplayAppend(s: State, log: seq<Created>, c: Created)
    ensures Replay(s, log + [c]) ==
            if Replay(s, log).None? then None else Applied(Replay(s, log).value, c)
  {
    assert (log + [c])[..|log|] == log;
  }

  lemma {:induction false} ReplayAbsorbs(s: State, log: seq<Created>, c: Created)
    requires Replay(s, log).Some?
    ensures c in log ==> Absorbed(Replay(s, log).value, c)
    ensures Absorbed(s, c) ==> Absorbed(Replay(s, log).value, c)
  {
    if log != [] {
      var n := |log| - 1;
      ReplayAbsorbs(s, log[..n], c);
      AppliedAbsorbs(Replay(s, log[..n]).value, log[n], c);
      assert log == log[..n] + [log[n]];
    }
  }

  lemma {:induction false} ReplayOfAbsorbed(s: State, log: seq<Created>)
    requires forall c | c in log :: Absorbed(s, c)
    ensures Replay(s, log) == Some(s)
  {
    if log != [] {
      var n := |log| - 1;
      assert log == log[..n] + [log[n]];
      ReplayOfAbsorbed(s, log[..n]);
      AbsorbedAppliesAsNothing(s, log[n]);
    }
  }

  /** Replaying a log that the state has already absorbed changes nothing. */
  lemma ReplayTwice(s: State, log: seq<Created>)
    requires Replay(s, log).Some?
    ensures Replay(Replay(s, log).value, log) == Replay(s, log)
  {
    var s' := Replay(s, log).value;
    forall c | c in log ensures Absorbed(s', c) {
      ReplayAbsorbs(s, log, c);
    }
    ReplayOfAbsorbed(s', log);
  }

  lemma {:induction false} ReplayKeepsServers(s: State, log: seq<Created>)
    requires Replay(s, log).Some?
    ensures s.servers <= Replay(s, log).value.servers
    ensures Distinct(s.servers) ==> Distinct(Replay(s, log).value.servers)
  {
    if log != [] {
      ReplayKeepsServers(s, log[..|log| - 1]);
    }
  }

  // ---- the log as text ----------------------------------------------------------------------

  /** How a record is written; `decode` answers `None` for a line that is no record. */
  datatype Codec = Codec(encode: Created -> string, decode: string -> Option<Created>)

  /** Beginnings of records, run together without a single line end. */
  ghost predicate Fragments(codec: Codec, text: string)
    decreases |text|
  {
    exists c, n: nat :: EndsInFragment(codec, text, c, n) && (n == |text| || Fragments(codec, text[..|text| - n]))
  }

  ghost predicate EndsInFragment(codec: Codec, text: string, c: Created, n: nat) {
    0 < n <= |text| && n <= |codec.encode(c)| && text[|text| - n..] == codec.encode(c)[..n]
  }

  /**
   * What is used of JSON: a record is one non-empty line that decodes to itself,
   * and a record written behind unfinished ones is not a record any more.
   */
  ghost predicate CodecOk(codec: Codec) {
    && (forall c :: '\n' !in codec.encode(c) && codec.encode(c) != "")
    && (forall c :: codec.decode(codec.encode(c)) == Some(c))
    && (forall junk, c | Fragments(codec, junk) :: codec.decode(junk + codec.encode(c)).None?)
  }

  lemma {:induction false} FragmentsOnOneLine(codec: Codec, text: string)
    requires CodecOk(codec) && Fragments(codec, text)
    ensures '\n' !in text && text != ""
    decreases |text|
  {
    var c, n: nat :| EndsInFragment(codec, text, c, n) && (n == |text| || Fragments(codec, text[..|text| - n]));
    if n < |text| {
      FragmentsOnOneLine(codec, text[..|text| - n]);
    }
    forall i | 0 <= i < |text| ensures text[i] != '\n' {
      if i < |text| - n {
        assert text[i] == text[..|text| - n][i];
      } else {
        assert text[i] == text[|text| - n..][i - (|text| - n)];
        assert codec.encode(c)[i - (|text| - n)] in codec.encode(c);
      }
    }
  }

  lemma FragmentsGrow(codec: Codec, junk: string, c: Created, n: nat)
    requires (junk == "" || Fragments(codec, junk)) && 0 < n <= |codec.encode(c)|
    ensures Fragments(codec, junk + codec.encode(c)[..n])
  {
    var text := junk + codec.encode(c)[..n];
    assert text[|text| - n..] == codec.encode(c)[..n];
    assert text[..|text| - n] == junk;
    assert EndsInFragment(codec, text, c, n);
  }

  // ---- reading lines ------------------------------------------------------------------------

  function LineEnd(text: string): (n: nat)
    ensures n <= |text|
    ensures forall i | 0 <= i < n :: text[i] != '\n'
    ensures n < |text| ==> text[n] == '\n'
  {
    if text == "" || text[0] == '\n' then 0 else 1 + LineEnd(text[1..])
  }

  /** The lines of a file, each with its line end, except perhaps the last. */
  function Lines(text: string): seq<string>
    decreases |text|
  {
    if text == "" then []
    else
      var n := LineEnd(text);
      if n == |text| then [text] else [text[..n + 1]] + Lines(text[n + 1..])
  }

  lemma {:induction false} LineEndIs(text: string, n: nat)
    requires n <= |text| && forall i | 0 <= i < n :: text[i] != '\n'
    requires n < |text| ==> text[n] == '\n'
    ensures LineEnd(text) == n
  {
    if n > 0 {
      LineEndIs(text[1..], n - 1);
    }
  }

  lemma LineEndAt(x: string, rest: string)
    requires '\n' !in x
    ensures LineEnd(x + "\n" + rest) == |x|
    ensures LineEnd(x) == |x|
  {
    var text := x + "\n" + rest;
    assert text[|x|] == '\n';
    assert forall i | 0 <= i < |x| :: text[i] == x[i];
    LineEndIs(text, |x|);
    LineEndIs(x, |x|);
  }

  lemma FirstLine(x: string, rest: string)
    requires '\n' !in x
    ensures Lines(x + "\n" + rest) == [x + "\n"] + Lines(rest)
    ensures Lines(x) == if x == "" then [] else [x]
  {
    LineEndAt(x, rest);
    var text := x + "\n" + rest;
    assert text[..|x| + 1] == x + "\n";
    assert text[|x| + 1..] == rest;
  }

  /** Only the last line of a file can lack its end; that one is forgiven. */
  predicate Terminated(line: string) {
    line != "" && line[|line| - 1] == '\n'
  }

  /** Decode every finished line; `None` when one of them is no record. */
  function Decoded(codec: Codec, lines: seq<string>): Option<seq<Created>> {
    if lines == [] then Some([])
    else
      var rest := Decoded(codec, lines[1..]);
      if !Terminated(lines[0]) then rest
      else
        var c := codec.decode(lines[0][..|lines[0]| - 1]);
        if c.None? || rest.None? then None else Some([c.value] + rest.value)
  }

  lemma DecodedFirst(codec: Codec, x: string, lines: seq<string>)
    ensures Decoded(codec, [x + "\n"] + lines) ==
            if codec.decode(x).None? || Decoded(codec, lines).None? then None
            else Some([codec.decode(x).value] + Decoded(codec, lines).value)
  {
    var l := x + "\n";
    assert l[..|l| - 1] == x;
    assert ([l] + lines)[1..] == lines;
  }

  // ---- which histories of appends can be read back ------------------------------------------

  /** One call of `append_json_record` and how many characters of its line reached the file. */
  datatype Append = Append(record: Created, cut: nat)

  function LineOf(codec: Codec, c: Created): string {
    codec.encode(c) + "\n"
  }

  predicate Complete(codec: Codec, a: Append) {
    a.cut >= |LineOf(codec, a.record)|
  }

  predicate Torn(codec: Codec, a: Append) {
    0 < a.cut < |LineOf(codec, a.record)|
  }

  function Written(codec: Codec, a: Append): string {
    if Complete(codec, a) then LineOf(codec, a.record) else LineOf(codec, a.record)[..a.cut]
  }

  function Content(codec: Codec, history: seq<Append>): string
    decreases |history|
  {
    if history == [] then "" else Written(codec, history[0]) + Content(codec, history[1..])
  }

  /** No append that finished its line came after one that did not. */
  predicate TearsLast(codec: Codec, history: seq<Append>) {
    forall i, j | 0 <= i < j < |history| :: Torn(codec, history[i]) ==> !Complete(codec, history[j])
  }

  function Finished(codec: Codec, history: seq<Append>): seq<Created>
    decreases |history|
  {
    if history == [] then []
    else (if Complete(codec, history[0]) then [history[0].record] else []) + Finished(codec, history[1..])
  }

  /** What a reader gets when `torn` says whether the file so far ends inside a line. */
  function Readable(codec: Codec, torn: bool, history: seq<Append>): Option<seq<Created>>
    decreases |history|
  {
    if history == [] then Some([])
    else if Complete(codec, history[0]) then
      var rest := Readable(codec, false, history[1..]);
      if torn || rest.None? then None else Some([history[0].record] + rest.value)
    else Readable(codec, torn || Torn(codec, history[0]), history[1..])
  }

  lemma {:induction false} ScanFrom(codec: Codec, junk: string, history: seq<Append>)
    requires CodecOk(codec) && (junk == "" || Fragments(codec, junk))
    ensures Decoded(codec, Lines(junk + Content(codec, history))) == Readable(codec, junk != "", history)
    decreases |history|
  {
    if junk != "" {
      FragmentsOnOneLine(codec, junk);
    }
    if history == [] {
      assert junk + Content(codec, history) == junk;
      FirstLine(junk, "");
    } else {
      var a, rest := history[0], Content(codec, history[1..]);
      if Complete(codec, a) {
        ScanComplete(codec, junk, a.record, rest);
        ScanFrom(codec, "", history[1..]);
        assert "" + rest == rest;
      } else if Torn(codec, a) {
        FragmentsGrow(codec, junk, a.record, a.cut);
        var more := junk + codec.encode(a.record)[..a.cut];
        assert LineOf(codec, a.record)[..a.cut] == codec.encode(a.record)[..a.cut];
        assert junk + (Written(codec, a) + rest) == more + rest;
        ScanFrom(codec, more, history[1..]);
      } else {
        assert junk + (Written(codec, a) + rest) == junk + rest;
        ScanFrom(codec, junk, history[1..]);
      }
    }
  }

  /** A finished line is a record, unless it was written behind an unfinished one. */
  lemma ScanComplete(codec: Codec, junk: string, c: Created, rest: string)
    requires CodecOk(codec) && (junk == "" || Fragments(codec, junk))
    ensures Decoded(codec, Lines(junk + (LineOf(codec, c) + rest))) ==
            if junk != "" || Decoded(codec, Lines(rest)).None? then None
            else Some([c] + Decoded(codec, Lines(rest)).value)
  {
    var x := junk + codec.encode(c);
    if junk != "" {
      FragmentsOnOneLine(codec, junk);
    } else {
      assert x == codec.encode(c);
    }
    assert '\n' !in x;
    assert junk + (LineOf(codec, c) + rest) == x + "\n" + rest;
    FirstLine(x, rest);
    DecodedFirst(codec, x, Lines(rest));
  }

  lemma {:induction false} ReadableExactly(codec: Codec, torn: bool, history: seq<Append>)
    ensures Readable(codec, torn, history).Some? <==>
            TearsLast(codec, history) && (torn ==> forall j | 0 <= j < |history| :: !Complete(codec, history[j]))
    ensures Readable(codec, torn, history).Some? ==>
            Readable(codec, torn, history).value == Finished(codec, history)
    decreases |history|
  {
    if history != [] {
      var tail := history[1..];
      ReadableExactly(codec, false, tail);
      ReadableExactly(codec, torn || Torn(codec, history[0]), tail);
      TearsLastSplit(codec, history);
    }
  }

  lemma TearsLastSplit(codec: Codec, history: seq<Append>)
    requires history != []
    ensures TearsLast(codec, history) <==>
            TearsLast(codec, history[1..])
            && (Torn(codec, history[0]) ==> forall j | 0 <= j < |history[1..]| :: !Complete(codec, history[1..][j]))
    ensures (forall j | 0 <= j < |history| :: !Complete(codec, history[j])) <==>
            !Complete(codec, history[0]) && forall j | 0 <= j < |history[1..]| :: !Complete(codec, history[1..][j])
  {
    var tail := history[1..];
    forall j | 0 <= j < |tail| ensures tail[j] == history[j + 1] {}
    if TearsLast(codec, tail)
       && (Torn(codec, history[0]) ==> forall j | 0 <= j < |tail| :: !Complete(codec, tail[j])) {
      forall i, j | 0 <= i < j < |history| && Torn(codec, history[i]) ensures !Complete(codec, history[j]) {
        assert history[j] == tail[j - 1];
        if i > 0 {
          assert history[i] == tail[i - 1];
        }
      }
    }
    if forall j | 0 <= j < |tail| :: !Complete(codec, tail[j]) {
      forall j | 0 < j < |history| ensures !Complete(codec, history[j]) {
        assert history[j] == tail[j - 1];
      }
    }
  }

  /**
   * A log can be read back exactly when no append that finished its line came
   * after one that did not; what is read is then every finished record, in order.
   */
  lemma LogReadableExactly(codec: Codec, history: seq<Append>)
    requires CodecOk(codec)
    ensures Decoded(codec, Lines(Content(codec, history))).Some? <==> TearsLast(codec, history)
    ensures TearsLast(codec, history) ==>
              Decoded(codec, Lines(Content(codec, history))) == Some(Finished(codec, history))
  {
    ScanFrom(codec, "", history);
    assert "" + Content(codec, history) == Content(codec, history);
    ReadableExactly(codec, false, history);
  }
}
