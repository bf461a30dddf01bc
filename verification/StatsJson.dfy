/** What to_json prints is read back by a strict JSON reader, exactly when no URL holds a control
    character. */
module StatsJson {
  import opened Prelude
  import opened Json
  import opened Stats

  // --------------------------------------------------------------- numbers

  predicate AllDigits(s: string) { forall i :: 0 <= i < |s| ==> IsDigit(s[i]) }

  predicate EndsNumber(s: string) { s != "" && s[0] in ",}" }

  lemma {:induction false} DecimalShape(n: nat)
    ensures var d := Decimal(n);
      d != "" && AllDigits(d) && (d[0] == '0' ==> d == "0")
    ensures n > 0 ==> Decimal(n)[0] != '0'
  {
    if n >= 10 {
      DecimalShape(n / 10);
    }
  }

  lemma {:induction false} TakesAllDigits(d: string, rest: string)
    requires AllDigits(d) && EndsNumber(rest)
    ensures TakeDigits(d + rest) == Parsed(d, rest)
  {
    if d == "" {
      assert d + rest == rest;
    } else {
      assert (d + rest)[1..] == d[1..] + rest;
      TakesAllDigits(d[1..], rest);
      assert [d[0]] + d[1..] == d;
    }
  }

  lemma DecimalIsInt(n: nat, rest: string)
    requires EndsNumber(rest)
    ensures var s := Decimal(n) + rest;
      s != "" && IsDigit(s[0]) && ReadInt(s) == Some(Parsed(Decimal(n), rest))
  {
    var d := Decimal(n);
    DecimalShape(n);
    TakesAllDigits(d, rest);
    hide Decimal, TakeDigits;
    if d[0] == '0' {
      assert (d + rest)[1..] == rest;
    }
  }

  lemma DecimalReads(n: nat, rest: string)
    requires EndsNumber(rest)
    ensures ReadValue(Decimal(n) + rest) == Some(Parsed(Number(Decimal(n)), rest))
  {
    var d := Decimal(n);
    var s := d + rest;
    DecimalIsInt(n, rest);
    assert ReadFraction(rest) == Some(Parsed("", rest));
    assert ReadExponent(rest) == Some(Parsed("", rest));
    hide Decimal, ReadInt, ReadFraction, ReadExponent;
    assert s[0..] == s;
    assert "" + d + "" + "" == d;
    assert ReadNumber(s) == Some(Parsed(Number(d), rest));
  }

  // --------------------------------------------------------------- samples

  function FieldValue(key: char, n: nat): (string, Value) { ([key], Number(Decimal(n))) }

  function SampleValue(s: Sample): Value {
    Object([FieldValue('t', s.t), FieldValue('c', s.c), FieldValue('e', s.e)])
  }

  function SampleValues(samples: seq<Sample>): (vs: seq<Value>)
    ensures |vs| == |samples|
  {
    if samples == [] then [] else [SampleValue(samples[0])] + SampleValues(samples[1..])
  }

  lemma KeyReads(key: char, rest: string)
    requires 'a' <= key <= 'z'
    ensures ReadString([key, '"'] + rest) == Some(Parsed([key], rest))
  {
    var s := [key, '"'] + rest;
    assert s[1..] == ['"'] + rest;
    assert s[1..][1..] == rest;
    assert ReadString(s[1..]) == Some(Parsed("", rest));
    assert [key] + "" == [key];
  }

  lemma FieldReads(key: char, n: nat, rest: string)
    requires 'a' <= key <= 'z' && EndsNumber(rest)
    ensures ReadMember(Field(key, n, rest)) == Some(Parsed(FieldValue(key, n), rest))
  {
    var number := Decimal(n) + rest;
    var s := Field(key, n, rest);
    assert s[1..] == [key, '"'] + ([':'] + number);
    KeyReads(key, [':'] + number);
    assert SkipWs([':'] + number) == [':'] + number;
    assert ([':'] + number)[1..] == number;
    DecimalShape(n);
    assert IsDigit(number[0]);
    assert SkipWs(number) == number;
    DecimalReads(n, rest);
  }

  lemma LastMember(text: string, m: (string, Value), tail: string)
    requires ReadMember(text) == Some(Parsed(m, "}" + tail))
    ensures ReadMembers(text) == Some(Parsed([m], tail))
  {
    var rest := "}" + tail;
    assert SkipWs(rest) == rest && rest[1..] == tail;
  }

  lemma OneMoreMember(text: string, m: (string, Value), more: string)
    requires ReadMember(text) == Some(Parsed(m, "," + more)) && more != "" && more[0] == '"'
    ensures var r := ReadMembers(more);
      ReadMembers(text) == if r.None? then None else Some(Parsed([m] + r.value.value, r.value.rest))
  {
    var rest := "," + more;
    assert SkipWs(rest) == rest && rest[1..] == more && SkipWs(more) == more;
  }

  lemma FieldsRead(s: Sample, tail: string)
    ensures ReadMembers(Field('t', s.t, "," + Field('c', s.c, "," + Field('e', s.e, "}" + tail))))
         == Some(Parsed([FieldValue('t', s.t), FieldValue('c', s.c), FieldValue('e', s.e)], tail))
  {
    hide ReadMembers, ReadMember, Decimal;
    var e := Field('e', s.e, "}" + tail);
    var c := Field('c', s.c, "," + e);
    var t := Field('t', s.t, "," + c);
    FieldReads('e', s.e, "}" + tail);
    LastMember(e, FieldValue('e', s.e), tail);
    FieldReads('c', s.c, "," + e);
    OneMoreMember(c, FieldValue('c', s.c), e);
    FieldReads('t', s.t, "," + c);
    OneMoreMember(t, FieldValue('t', s.t), c);
    assert [FieldValue('t', s.t)] + ([FieldValue('c', s.c)] + [FieldValue('e', s.e)])
        == [FieldValue('t', s.t), FieldValue('c', s.c), FieldValue('e', s.e)];
  }

  lemma SampleReads(s: Sample, tail: string)
    ensures ReadValue(SampleText(s, tail)) == Some(Parsed(SampleValue(s), tail))
  {
    hide ReadMembers, Decimal;
    var t := Field('t', s.t, "," + Field('c', s.c, "," + Field('e', s.e, "}" + tail)));
    FieldsRead(s, tail);
    assert SampleText(s, tail) == "{" + t;
    assert ("{" + t)[1..] == t && SkipWs(t) == t && t[0] == '"';
  }

  lemma LastItem(text: string, v: Value, tail: string)
    requires ReadValue(text) == Some(Parsed(v, "]" + tail))
    ensures ReadItems(text) == Some(Parsed([v], tail))
  {
    var rest := "]" + tail;
    assert SkipWs(rest) == rest && rest[1..] == tail;
  }

  lemma OneMoreItem(text: string, v: Value, more: string, vs: seq<Value>, tail: string)
    requires ReadValue(text) == Some(Parsed(v, "," + more)) && more != "" && more[0] == '{'
    requires ReadItems(more) == Some(Parsed(vs, tail))
    ensures ReadItems(text) == Some(Parsed([v] + vs, tail))
  {
    var rest := "," + more;
    assert SkipWs(rest) == rest && rest[1..] == more && SkipWs(more) == more;
  }

  lemma ItemsText(samples: seq<Sample>, tail: string)
    requires samples != []
    ensures var rest := SamplesText(samples[1..], false, tail);
      && SamplesText(samples, true, tail) == SampleText(samples[0], rest) && SampleText(samples[0], rest)[0] == '{'
      && rest == if |samples| == 1 then "]" + tail else "," + SamplesText(samples[1..], true, tail)
  {
    hide Field;
    var rest := SamplesText(samples[1..], false, tail);
    assert Comma(true) + SampleText(samples[0], rest) == SampleText(samples[0], rest);
    if |samples| > 1 {
      var more := SamplesText(samples[1..][1..], false, tail);
      assert Comma(true) + SampleText(samples[1], more) == SampleText(samples[1], more);
    }
    hide SampleText;
  }

  lemma {:induction false} ItemsRead(samples: seq<Sample>, tail: string)
    requires samples != []
    ensures ReadItems(SamplesText(samples, true, tail)) == Some(Parsed(SampleValues(samples), tail))
    decreases |samples|
  {
    hide ReadItems, ReadValue, SampleText, SamplesText, SampleValue;
    var rest := SamplesText(samples[1..], false, tail);
    var text := SampleText(samples[0], rest);
    ItemsText(samples, tail);
    SampleReads(samples[0], rest);
    if |samples| == 1 {
      LastItem(text, SampleValue(samples[0]), tail);
      assert SampleValues(samples) == [SampleValue(samples[0])] + SampleValues(samples[1..]) == [SampleValue(samples[0])];
    } else {
      ItemsText(samples[1..], tail);
      ItemsRead(samples[1..], tail);
      OneMoreItem(text, SampleValue(samples[0]), SamplesText(samples[1..], true, tail), SampleValues(samples[1..]), tail);
    }
  }

  lemma SamplesRead(samples: seq<Sample>, tail: string)
    ensures ReadValue("[" + SamplesText(samples, true, tail)) == Some(Parsed(Array(SampleValues(samples)), tail))
  {
    var t := SamplesText(samples, true, tail);
    assert ("[" + t)[1..] == t;
    if samples == [] {
      assert t == "]" + tail && SkipWs(t) == t && t[1..] == tail;
    } else {
      ItemsRead(samples, tail);
      assert t[0] == '{' && SkipWs(t) == t;
    }
  }

  // ------------------------------------------------------------------ URLs

  /** No character below U+0020: the ones a JSON string must escape and to_json does not. */
  predicate Clean(url: string) { forall i :: 0 <= i < |url| ==> url[i] >= ' ' }

  /** One character of a URL, escaped or not, is one character of the string read; a control character none. */
  lemma CharReads(c: char, rest: string)
    ensures ReadString(EscapedChar(c) + rest)
         == var r := ReadString(rest);
            if c < ' ' || r.None? then None else Some(Parsed([c] + r.value.value, r.value.rest))
  {
    var s := EscapedChar(c) + rest;
    if c == '"' || c == '\\' {
      assert s[0] == '\\' && s[1..] == [c] + rest && s[1..][1..] == rest;
      assert ReadEscape(s[1..]) == Some(Parsed(c, rest));
    } else {
      assert s[0] == c && s[1..] == rest;
    }
  }

  lemma {:induction false} UrlReads(url: string, tail: string)
    ensures ReadString(Escaped(url, "\"" + tail)) == if Clean(url) then Some(Parsed(url, tail)) else None
  {
    hide ReadString, Clean;
    if url == "" {
      QuoteEnds(tail);
    } else {
      var c, front := url[0], url[1..];
      UrlReads(front, tail);
      CharReads(c, Escaped(front, "\"" + tail));
      CleanCons(url);
      hide Escaped, EscapedChar;
      assert url == [c] + front;
    }
  }

  lemma QuoteEnds(tail: string)
    ensures ReadString("\"" + tail) == Some(Parsed("", tail)) && Clean("")
  {
    assert ("\"" + tail)[1..] == tail;
  }

  lemma CleanCons(url: string)
    requires url != ""
    ensures Clean(url) <==> url[0] >= ' ' && Clean(url[1..])
  {
    assert url == [url[0]] + url[1..];
  }

  // --------------------------------------------------------------- entries

  function EntryValue(entry: Entry): (string, Value) { (entry.0, Array(SampleValues(entry.1))) }

  function EntryValues(entries: seq<Entry>): (vs: seq<(string, Value)>)
    ensures |vs| == |entries|
  {
    if entries == [] then [] else [EntryValue(entries[0])] + EntryValues(entries[1..])
  }

  predicate AllClean(entries: seq<Entry>) { forall i :: 0 <= i < |entries| ==> Clean(entries[i].0) }

  lemma EntryReads(entry: Entry, tail: string)
    ensures ReadMember(EntryText(entry, tail))
         == if Clean(entry.0) then Some(Parsed(EntryValue(entry), tail)) else None
  {
    hide ReadString, ReadValue, SamplesText, Escaped, SampleValues, Clean;
    var samples := "[" + SamplesText(entry.1, true, tail);
    var s := EntryText(entry, tail);
    assert "\":[" + SamplesText(entry.1, true, tail) == "\"" + (":" + samples);
    UrlReads(entry.0, ":" + samples);
    assert s[1..] == Escaped(entry.0, "\"" + (":" + samples));
    assert SkipWs(":" + samples) == ":" + samples && (":" + samples)[1..] == samples && SkipWs(samples) == samples;
    SamplesRead(entry.1, tail);
  }

  lemma {:induction false} MembersRead(entries: seq<Entry>)
    requires entries != []
    ensures ReadMembers(EntriesText(entries, true))
         == if AllClean(entries) then Some(Parsed(EntryValues(entries), "")) else None
    decreases |entries|
  {
    hide ReadMember, SamplesText, Escaped;
    var rest := EntriesText(entries[1..], false);
    var text := EntryText(entries[0], rest);
    assert EntriesText(entries, true) == text;
    EntryReads(entries[0], rest);
    assert AllClean(entries) <==> Clean(entries[0].0) && AllClean(entries[1..]);
    if |entries| > 1 {
      MembersRead(entries[1..]);
    }
    if Clean(entries[0].0) {
      if |entries| == 1 {
        assert "}" + "" == "}" == rest;
        LastMember(text, EntryValue(entries[0]), "");
        assert EntryValues(entries) == [EntryValue(entries[0])];
      } else {
        assert rest == "," + EntriesText(entries[1..], true);
        OneMoreMember(text, EntryValue(entries[0]), EntriesText(entries[1..], true));
      }
    }
  }

  /** The printed text is a JSON text exactly when every URL is clean, and then it reads as an object
      with the URLs and samples in the order printed. */
  lemma TextReads(entries: seq<Entry>)
    ensures ReadText(Text(entries)) == if AllClean(entries) then Some(Object(EntryValues(entries))) else None
  {
    var t := EntriesText(entries, true);
    assert Text(entries) == "{" + t && ("{" + t)[1..] == t && SkipWs("{" + t) == "{" + t;
    assert SkipWs(t) == t;
    if entries != [] {
      assert t[0] == '"';
      hide EntriesText, AllClean, ReadMembers, EntryText, EntryValues;
      MembersRead(entries);
    }
  }

  // ------------------------------------------------- back to URLs and samples

  function DecimalValue(s: string): nat {
    if s == "" then 0
    else DecimalValue(s[..|s| - 1]) * 10 + (if IsDigit(s[|s| - 1]) then s[|s| - 1] as int - '0' as int else 0)
  }

  function NumberOf(v: Value): nat { if v.Number? then DecimalValue(v.text) else 0 }

  function SampleOf(v: Value): Option<Sample> {
    if v.Object? && |v.members| == 3 && v.members[0].0 == "t" && v.members[1].0 == "c" && v.members[2].0 == "e" then
      Some(Sample(NumberOf(v.members[0].1), NumberOf(v.members[1].1), NumberOf(v.members[2].1)))
    else None
  }

  function SamplesOf(vs: seq<Value>): Option<seq<Sample>> {
    if vs == [] then Some([])
    else
      var s, rest := SampleOf(vs[0]), SamplesOf(vs[1..]);
      if s.None? || rest.None? then None else Some([s.value] + rest.value)
  }

  function EntriesOf(members: seq<(string, Value)>): Option<seq<Entry>> {
    if members == [] then Some([])
    else
      var items := if members[0].1.Array? then SamplesOf(members[0].1.items) else None;
      var rest := EntriesOf(members[1..]);
      if items.None? || rest.None? then None else Some([(members[0].0, items.value)] + rest.value)
  }

  /** The URLs and samples that a stats document stands for. */
  function StatsOf(text: string): Option<seq<Entry>> {
    var v := ReadText(text);
    if v.Some? && v.value.Object? then EntriesOf(v.value.members) else None
  }

  lemma {:induction false} DecimalRoundTrip(n: nat)
    ensures DecimalValue(Decimal(n)) == n
  {
    if n < 10 {
      assert Decimal(n)[..0] == "";
    } else {
      DecimalRoundTrip(n / 10);
      assert Decimal(n)[..|Decimal(n)| - 1] == Decimal(n / 10);
    }
  }

  lemma {:induction false} SamplesRoundTrip(samples: seq<Sample>)
    ensures SamplesOf(SampleValues(samples)) == Some(samples)
  {
    if samples != [] {
      var s := samples[0];
      DecimalRoundTrip(s.t);
      DecimalRoundTrip(s.c);
      DecimalRoundTrip(s.e);
      SamplesRoundTrip(samples[1..]);
      assert SampleValues(samples)[1..] == SampleValues(samples[1..]);
      assert [s] + samples[1..] == samples;
    }
  }

  lemma {:induction false} EntriesRoundTrip(entries: seq<Entry>)
    ensures EntriesOf(EntryValues(entries)) == Some(entries)
  {
    if entries != [] {
      SamplesRoundTrip(entries[0].1);
      EntriesRoundTrip(entries[1..]);
      assert EntryValues(entries)[1..] == EntryValues(entries[1..]);
      assert [(entries[0].0, entries[0].1)] + entries[1..] == entries;
    }
  }

  /** For any map and any iteration order, reading to_json's output gives back exactly the same URLs
      and samples if, and only if, no URL holds a character below U+0020. */
  lemma ToJsonRoundTrip(data: map<string, seq<Sample>>, order: seq<string>)
    requires Visits(order, data)
    ensures StatsOf(Text(Entries(data, order))) == Some(Entries(data, order))
        <==> (forall u :: u in data ==> Clean(u))
    ensures (exists u :: u in data && !Clean(u)) ==> ReadText(Text(Entries(data, order))) == None
  {
    var entries := Entries(data, order);
    TextReads(entries);
    EntriesRoundTrip(entries);
    assert AllClean(entries) <==> (forall u :: u in data ==> Clean(u)) by {
      forall u | u in data && AllClean(entries)
        ensures Clean(u)
      {
        var i :| 0 <= i < |order| && order[i] == u;
        assert entries[i].0 == u;
      }
    }
  }
}
