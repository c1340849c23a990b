/** What is assumed of the JSON text of a record can be met: one line format that has all of it. */
module Codecs {
  import opened Wrappers
  import opened Records
  import opened Artifact

  /** A number in unary, with its end. */
  function Number(n: nat): string {
    seq(n, _ => '1') + ","
  }

  function Natural(i: int): nat {
    if i >= 0 then 2 * i else -2 * i - 1
  }

  function Characters(s: string): string {
    if s == "" then "" else Number(s[0] as int) + Characters(s[1..])
  }

  function Body(c: Created): string {
    Number(c.server) + (Number(Natural(c.submitted)) + (Number(Natural(c.accepted))
    + (Number(Natural(c.latency)) + Characters(c.name))))
  }

  function Encode(c: Created): string {
    "{" + Body(c) + "}"
  }

  ghost function Decode(text: string): Option<Created> {
    if exists c :: Encode(c) == text then
      var c :| Encode(c) == text;
      Some(c)
    else None
  }

  predicate Plain(text: string) {
    forall i | 0 <= i < |text| :: text[i] == '1' || text[i] == ','
  }

  lemma {:induction false} CharactersPlain(s: string)
    ensures Plain(Characters(s))
  {
    if s != "" {
      CharactersPlain(s[1..]);
    }
  }

  lemma BodyPlain(c: Created)
    ensures Plain(Body(c))
  {
    CharactersPlain(c.name);
  }

  /** A number ends where its first comma is. */
  lemma NumberCancels(a: nat, b: nat, x: string, y: string)
    requires Number(a) + x == Number(b) + y
    ensures a == b && x == y
  {
    var text := Number(a) + x;
    assert text[a] == ',' && text[b] == ',';
    assert forall i | 0 <= i < a :: text[i] == '1';
    assert forall i | 0 <= i < b :: text[i] == '1';
    assert x == text[a + 1..] && y == text[b + 1..];
  }

  lemma {:induction false} CharactersInjective(s: string, t: string)
    requires Characters(s) == Characters(t)
    ensures s == t
  {
    if s != "" && t != "" {
      NumberCancels(s[0] as int, t[0] as int, Characters(s[1..]), Characters(t[1..]));
      CharactersInjective(s[1..], t[1..]);
      assert s == [s[0]] + s[1..] && t == [t[0]] + t[1..];
    }
  }

  /** A record has its own line. */
  lemma EncodeInjective(c: Created, d: Created)
    requires Encode(c) == Encode(d)
    ensures c == d
  {
    assert Body(c) == Encode(c)[1..|Encode(c)| - 1] && Body(d) == Encode(d)[1..|Encode(d)| - 1];
    var c3, d3 := Number(Natural(c.latency)) + Characters(c.name), Number(Natural(d.latency)) + Characters(d.name);
    var c2, d2 := Number(Natural(c.accepted)) + c3, Number(Natural(d.accepted)) + d3;
    var c1, d1 := Number(Natural(c.submitted)) + c2, Number(Natural(d.submitted)) + d2;
    NumberCancels(c.server, d.server, c1, d1);
    NumberCancels(Natural(c.submitted), Natural(d.submitted), c2, d2);
    NumberCancels(Natural(c.accepted), Natural(d.accepted), c3, d3);
    NumberCancels(Natural(c.latency), Natural(d.latency), Characters(c.name), Characters(d.name));
    CharactersInjective(c.name, d.name);
  }

  lemma DecodesItself(c: Created)
    ensures Decode(Encode(c)) == Some(c)
  {
    var d := Decode(Encode(c)).value;
    EncodeInjective(c, d);
  }

  lemma BraceOnlyFirst(c: Created, i: nat)
    requires 0 < i < |Encode(c)|
    ensures Encode(c)[i] != '{'
  {
    BodyPlain(c);
  }

  /** Behind anything, a record's opening brace is in the wrong place. */
  lemma NoRecordBehind(junk: string, c: Created)
    requires junk != ""
    ensures Decode(junk + Encode(c)).None?
  {
    var text := junk + Encode(c);
    assert text[|junk|] == '{';
    forall d ensures Encode(d) != text {
      if |junk| < |Encode(d)| {
        BraceOnlyFirst(d, |junk|);
      }
    }
  }

  ghost function Sample(): Codec {
    Codec(Encode, Decode)
  }

  /** The assumption on the log's line format can be met. */
  lemma SampleCodecOk()
    ensures CodecOk(Sample())
  {
    var codec := Sample();
    forall c ensures '\n' !in codec.encode(c) && codec.encode(c) != "" && codec.decode(codec.encode(c)) == Some(c) {
      BodyPlain(c);
      DecodesItself(c);
    }
    forall junk, c | Fragments(codec, junk) ensures codec.decode(junk + codec.encode(c)).None? {
      assert junk != "";
      NoRecordBehind(junk, c);
    }
  }
}
