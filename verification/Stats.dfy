/** src/stats.rs: the rings of samples and the hand-written JSON printer. */
module Stats {
  const MAX_SAMPLES: nat := 1440

  datatype Sample = Sample(t: nat, c: nat, e: nat)

  type Entry = (string, seq<Sample>)

  /** A ring after one more sample. */
  function Recorded(ring: seq<Sample>, s: Sample): seq<Sample> {
    (if |ring| >= MAX_SAMPLES then ring[1..] else ring) + [s]
  }

  // ----------------------------------------------------- the text of to_json
  // Each function takes the text that follows, so that a whole reads from left to right.

  function Digit(d: nat): char
    requires d < 10
  {
    ('0' as int + d) as char
  }

  function Decimal(n: nat): string {
    if n < 10 then [Digit(n)] else Decimal(n / 10) + [Digit(n % 10)]
  }

  function Field(key: char, n: nat, tail: string): string { ['"', key, '"', ':'] + (Decimal(n) + tail) }

  function SampleText(s: Sample, tail: string): string {
    "{" + Field('t', s.t, "," + Field('c', s.c, "," + Field('e', s.e, "}" + tail)))
  }

  function Comma(first: bool): string { if first then "" else "," }

  function SamplesText(samples: seq<Sample>, first: bool, tail: string): string {
    if samples == [] then "]" + tail
    else Comma(first) + SampleText(samples[0], SamplesText(samples[1..], false, tail))
  }

  function EscapedChar(c: char): string {
    if c == '"' then "\\\"" else if c == '\\' then "\\\\" else [c]
  }

  function Escaped(url: string, tail: string): string {
    if url == "" then tail else EscapedChar(url[0]) + Escaped(url[1..], tail)
  }

  function EntryText(entry: Entry, tail: string): string {
    "\"" + Escaped(entry.0, "\":[" + SamplesText(entry.1, true, tail))
  }

  function EntriesText(entries: seq<Entry>, first: bool): string {
    if entries == [] then "}"
    else Comma(first) + EntryText(entries[0], EntriesText(entries[1..], false))
  }

  function Text(entries: seq<Entry>): string { "{" + EntriesText(entries, true) }

  /** The entries of a map in the order in which an iterator happens to visit its keys. */
  function Entries(data: map<string, seq<Sample>>, order: seq<string>): (es: seq<Entry>)
    requires forall u :: u in order ==> u in data
    ensures |es| == |order| && forall i :: 0 <= i < |order| ==> es[i] == (order[i], data[order[i]])
  {
    if order == [] then [] else [(order[0], data[order[0]])] + Entries(data, order[1..])
  }

  /** Every key exactly once. */
  predicate Visits(order: seq<string>, data: map<string, seq<Sample>>) {
    && (forall u :: u in order ==> u in data)
    && (forall u :: u in data ==> u in order)
    && (forall i, j :: 0 <= i < j < |order| ==> order[i] != order[j])
  }

  lemma Assoc(a: string, b: string, c: string)
    ensures (a + b) + c == a + (b + c)
  {
  }

  class Stats {
    var data: map<string, seq<Sample>>

    constructor ()
      ensures data == map[]
    {
      data := map[];
    }

    method Record(url: string, t: nat, connections: nat, errors: nat)
      modifies this
      ensures data == old(data)[url := Recorded(if url in old(data) then old(data)[url] else [], Sample(t, connections, errors))]
    {
      var ring := if url in data then data[url] else [];
      if |ring| >= MAX_SAMPLES {
        ring := ring[1..];
      }
      ring := ring + [Sample(t, connections, errors)];
      data := data[url := ring];
    }

    method ToJson(order: seq<string>) returns (out: string)
      requires Visits(order, data)
      ensures out == Text(Entries(data, order))
    {
      ghost var entries := Entries(data, order);
      out := "{";
      var firstBackend := true;
      for i := 0 to |order|
        invariant firstBackend == (i == 0)
        invariant out + EntriesText(entries[i..], firstBackend) == Text(entries)
      {
        var url := order[i];
        ghost var rest := EntriesText(entries[i + 1..], false);
        assert entries[i..][0] == (url, data[url]) && entries[i..][1..] == entries[i + 1..];
        if !firstBackend {
          Assoc(out, ",", EntryText((url, data[url]), rest));
          out := out + [','];
        }
        firstBackend := false;
        assert out + EntryText((url, data[url]), rest) == Text(entries);
        out := WriteEntry(out, url, data[url], rest);
      }
      out := out + ['}'];
    }
  }

  /** The loop body of to_json: one URL and its samples. */
  method WriteEntry(before: string, url: string, samples: seq<Sample>, ghost rest: string) returns (out: string)
    ensures out + rest == before + EntryText((url, samples), rest)
  {
    ghost var text := SamplesText(samples, true, rest);
    Assoc(before, "\"", Escaped(url, "\":[" + text));
    out := WriteEscaped(before + ['"'], url, "\":[" + text);
    Assoc(out, "\":[", text);
    out := WriteSamples(out + "\":[", samples, rest);
  }

  method WriteEscaped(before: string, url: string, ghost rest: string) returns (out: string)
    ensures out + rest == before + Escaped(url, rest)
  {
    out := before;
    for j := 0 to |url|
      invariant out + Escaped(url[j..], rest) == before + Escaped(url, rest)
    {
      var ch := url[j];
      Assoc(out, EscapedChar(ch), Escaped(url[j + 1..], rest));
      assert url[j..][0] == ch && url[j..][1..] == url[j + 1..];
      if ch == '"' {
        out := out + "\\\"";
      } else if ch == '\\' {
        out := out + "\\\\";
      } else {
        out := out + [ch];
      }
    }
  }

  method WriteSamples(before: string, samples: seq<Sample>, ghost rest: string) returns (out: string)
    ensures out + rest == before + SamplesText(samples, true, rest)
  {
    out := before;
    var firstSample := true;
    for k := 0 to |samples|
      invariant firstSample == (k == 0)
      invariant out + SamplesText(samples[k..], firstSample, rest) == before + SamplesText(samples, true, rest)
    {
      ghost var more := SamplesText(samples[k + 1..], false, rest);
      assert samples[k..][0] == samples[k] && samples[k..][1..] == samples[k + 1..];
      if !firstSample {
        Assoc(out, ",", SampleText(samples[k], more));
        out := out + [','];
      }
      firstSample := false;
      out := WriteSample(out, samples[k], more);
    }
    Assoc(out, "]", rest);
    out := out + [']'];
  }

  method WriteSample(before: string, s: Sample, ghost rest: string) returns (out: string)
    ensures out + rest == before + SampleText(s, rest)
  {
    out := before + "{\"t\":" + Decimal(s.t) + ",\"c\":" + Decimal(s.c) + ",\"e\":" + Decimal(s.e) + "}";
    SampleTextSplit(s, rest);
    Assoc(before, "{\"t\":" + Decimal(s.t) + ",\"c\":" + Decimal(s.c) + ",\"e\":" + Decimal(s.e) + "}", rest);
  }

  lemma SampleTextSplit(s: Sample, tail: string)
    ensures SampleText(s, tail)
         == ("{\"t\":" + Decimal(s.t) + ",\"c\":" + Decimal(s.c) + ",\"e\":" + Decimal(s.e) + "}") + tail
  {
    hide Decimal;
  }
}
