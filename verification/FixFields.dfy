/** tag=value fields (`FixParser::splitFields`) and the messages made of them. */
module FixFields {
  import opened Options
  import opened Words
  import opened Text
  import opened Stream
  import opened FixFrame
  import opened FixChecksum

  datatype Field = Field(tag: int, value: string)

  type Fields = map<int, string>

  /** A parser of tag numbers; None is an exception. */
  type TagParser = string -> Option<int>

  /** Where the field that starts at a position has its '=' and its SOH. */
  datatype Span = Span(eq: nat, soh: nat)

  function SpanAt(raw: string, pos: nat): (r: Option<Span>)
    requires pos <= |raw|
    ensures r.Some? ==> pos <= r.value.eq < r.value.soh < |raw|
  {
    var eq := Find(raw, '=', pos);
    if eq == |raw| then None
    else
      var soh := Find(raw, SOH, eq);
      if soh == |raw| then None else Some(Span(eq, soh))
  }

  /** A field as text: what stands before its '=' and what stands after. */
  datatype Entry = Entry(tagText: string, value: string)

  /** The fields from position `pos` on, in order. */
  function EntriesFrom(raw: string, pos: nat): seq<Entry>
    requires pos <= |raw|
    decreases |raw| - pos
  {
    var f := SpanAt(raw, pos);
    if f.None? then []
    else [Entry(raw[pos..f.value.eq], raw[f.value.eq + 1..f.value.soh])] + EntriesFrom(raw, f.value.soh + 1)
  }

  lemma EntriesStep(raw: string, pos: nat, f: Span, e: Entry)
    requires pos <= |raw| && SpanAt(raw, pos) == Some(f) && e == Entry(raw[pos..f.eq], raw[f.eq + 1..f.soh])
    ensures EntriesFrom(raw, pos) == [e] + EntriesFrom(raw, f.soh + 1)
  {}

  /** Store fields one after another. A later field with the same tag replaces an earlier one; a
      tag that is not a number is skipped. */
  function StoreAll(parse: TagParser, fields: Fields, es: seq<Entry>): Fields
    decreases |es|
  {
    if es == [] then fields else StoreAll(parse, Store(fields, parse(es[0].tagText), es[0].value), es[1..])
  }

  function Store(fields: Fields, tag: Option<int>, value: string): Fields {
    if tag.Some? then fields[tag.value := value] else fields
  }

  function SplitAll(raw: string): Fields { StoreAll(Stoi, map[], EntriesFrom(raw, 0)) }

  /** Storing what is left from `pos` on completes `fields` to `all`. */
  ghost predicate Completes(parse: TagParser, raw: string, pos: nat, fields: Fields, all: Fields)
    requires pos <= |raw|
  {
    StoreAll(parse, fields, EntriesFrom(raw, pos)) == all
  }

  /** One round of the loop. */
  lemma StoreStep(parse: TagParser, raw: string, pos: nat, fields: Fields, all: Fields)
    requires pos <= |raw| && Completes(parse, raw, pos, fields, all)
    ensures
      var f := SpanAt(raw, pos);
      if f.None? then fields == all
      else
        var tag, value := parse(raw[pos..f.value.eq]), raw[f.value.eq + 1..f.value.soh];
        Completes(parse, raw, f.value.soh + 1, Store(fields, tag, value), all)
  {
    var f := SpanAt(raw, pos);
    if f.Some? {
      var e := Entry(raw[pos..f.value.eq], raw[f.value.eq + 1..f.value.soh]);
      EntriesStep(raw, pos, f.value, e);
      StoreCons(parse, fields, e, EntriesFrom(raw, f.value.soh + 1));
    }
  }

  lemma StoreCons(parse: TagParser, fields: Fields, e: Entry, es: seq<Entry>)
    ensures StoreAll(parse, fields, [e] + es) == StoreAll(parse, Store(fields, parse(e.tagText), e.value), es)
  {
    assert ([e] + es)[1..] == es;
  }

  /** The body of the loop: read the field at `pos` and store it. */
  method ReadNext(parse: TagParser, raw: string, pos: nat, fields: Fields, ghost all: Fields)
    returns (done: bool, fields': Fields, pos': nat)
    requires pos <= |raw| && Completes(parse, raw, pos, fields, all)
    ensures done ==> fields' == all
    ensures pos <= pos' <= |raw|
    ensures !done ==> pos < pos' && Completes(parse, raw, pos', fields', all)
  {
    StoreStep(parse, raw, pos, fields, all);
    done, fields', pos' := true, fields, pos;
    var eq := Find(raw, '=', pos);
    if eq == |raw| { return; }
    var soh := Find(raw, SOH, eq);
    if soh == |raw| { return; }
    var tag := parse(raw[pos..eq]);
    if tag.Some? { fields' := fields[tag.value := raw[eq + 1..soh]]; }
    done, pos' := false, soh + 1;
  }

  method SplitFieldsBy(parse: TagParser, raw: string) returns (fields: Fields)
    ensures fields == StoreAll(parse, map[], EntriesFrom(raw, 0))
  {
    ghost var all := StoreAll(parse, map[], EntriesFrom(raw, 0));
    fields := map[];
    var pos, done := 0, false;
    while !done
      invariant pos <= |raw|
      invariant if done then fields == all else Completes(parse, raw, pos, fields, all)
      decreases !done, |raw| - pos
    {
      done, fields, pos := ReadNext(parse, raw, pos, fields, all);
    }
  }

  method SplitFields(raw: string) returns (fields: Fields)
    ensures fields == SplitAll(raw)
  {
    fields := SplitFieldsBy(Stoi, raw);
  }

  // ------------------------------------------------------------------ printing fields

  function PrintField(f: Field): string { Signed(f.tag) + "=" + f.value + [SOH] }

  function Print(fs: seq<Field>): string {
    if fs == [] then "" else PrintField(fs[0]) + Print(fs[1..])
  }

  predicate Printable(f: Field) { -TWO_31 <= f.tag < TWO_31 && SohFree(f.value) }

  predicate AllPrintable(fs: seq<Field>) { forall i :: 0 <= i < |fs| ==> Printable(fs[i]) }

  /** The map of a field list in which the last field of a tag wins. */
  function LastWins(fields: Fields, fs: seq<Field>): Fields
    decreases |fs|
  {
    if fs == [] then fields else LastWins(fields[fs[0].tag := fs[0].value], fs[1..])
  }

  /** A field stands at position `p`. */
  ghost predicate FieldAt(raw: string, p: nat, tagText: string, value: string) {
    var eq := p + |tagText|;
    var soh := eq + 1 + |value|;
    soh < |raw| && raw[p..eq] == tagText && raw[eq] == '=' && raw[eq + 1..soh] == value && raw[soh] == SOH
  }

  lemma FieldSlices(raw: string, p: nat, tagText: string, value: string, rest: string)
    requires p <= |raw| && raw[p..] == tagText + "=" + value + [SOH] + rest
    ensures FieldAt(raw, p, tagText, value) && raw[p + |tagText| + 1 + |value| + 1..] == rest
  {
    var s := raw[p..];
    var eq := |tagText|;
    var soh := eq + 1 + |value|;
    assert s[..eq] == tagText && s[eq] == '=' && s[eq + 1..soh] == value && s[soh] == SOH && s[soh + 1..] == rest;
    assert raw[p..p + eq] == s[..eq] && raw[p + eq + 1..p + soh] == s[eq + 1..soh];
    assert raw[p + soh + 1..] == s[soh + 1..];
  }

  /** Splitting finds a printed field. */
  lemma SpanIs(raw: string, p: nat, tagText: string, value: string)
    requires FieldAt(raw, p, tagText, value) && SohFree(value)
    requires forall k :: 0 <= k < |tagText| ==> tagText[k] != '='
    ensures SpanAt(raw, p) == Some(Span(p + |tagText|, p + |tagText| + 1 + |value|))
  {
    var eq := p + |tagText|;
    var soh := eq + 1 + |value|;
    forall j | p <= j < eq ensures raw[j] != '=' { assert raw[j] == raw[p..eq][j - p]; }
    FindIs(raw, '=', p, eq);
    forall j | eq <= j < soh ensures raw[j] != SOH {
      if j > eq { assert raw[j] == raw[eq + 1..soh][j - eq - 1]; }
    }
    FindIs(raw, SOH, eq, soh);
  }

  /** An entry whose text can be told apart: no '=' in the tag, no SOH in the value. */
  predicate Clean(e: Entry) {
    SohFree(e.value) && forall k :: 0 <= k < |e.tagText| ==> e.tagText[k] != '='
  }

  /** No complete field: no '=' with a SOH after it. */
  predicate NoField(rest: string) { forall j, k :: 0 <= j < k < |rest| && rest[j] == '=' ==> rest[k] != SOH }

  function PrintEntry(e: Entry): string { e.tagText + "=" + e.value + [SOH] }

  function PrintEntries(es: seq<Entry>): string {
    if es == [] then "" else PrintEntry(es[0]) + PrintEntries(es[1..])
  }

  /** Reading a printed entry yields it and the position of what follows. */
  lemma ReadEntry(raw: string, p: nat, e: Entry, rest: string) returns (f: Span)
    requires p <= |raw| && raw[p..] == PrintEntry(e) + rest && Clean(e)
    ensures SpanAt(raw, p) == Some(f) && raw[f.soh + 1..] == rest
    ensures e == Entry(raw[p..f.eq], raw[f.eq + 1..f.soh])
  {
    FieldSlices(raw, p, e.tagText, e.value, rest);
    SpanIs(raw, p, e.tagText, e.value);
    f := Span(p + |e.tagText|, p + |e.tagText| + 1 + |e.value|);
  }

  lemma EntriesCons(raw: string, p: nat, e: Entry, rest: string, es: seq<Entry>)
    requires p <= |raw| && raw[p..] == PrintEntry(e) + rest && Clean(e)
    requires forall q :: 0 <= q <= |raw| && raw[q..] == rest ==> EntriesFrom(raw, q) == es
    ensures EntriesFrom(raw, p) == [e] + es
  {
    var f := ReadEntry(raw, p, e, rest);
    EntriesStep(raw, p, f, e);
  }

  lemma NothingSpans(raw: string, p: nat)
    requires p <= |raw| && NoField(raw[p..])
    ensures SpanAt(raw, p).None?
  {
    var rest, f := raw[p..], SpanAt(raw, p);
  }

  /** The text of any list of clean entries, followed by anything without a complete field, splits
      back into that list. */
  lemma {:induction false} EntriesPrinted(raw: string, p: nat, es: seq<Entry>, rest: string)
    requires p <= |raw| && Splits(raw[p..], es, rest)
    ensures EntriesFrom(raw, p) == es
    decreases |es|
  {
    if es == [] {
      assert "" + rest == rest;
      NothingSpans(raw, p);
    } else {
      var tail := PrintEntries(es[1..]) + rest;
      forall q | 0 <= q <= |raw| && raw[q..] == tail ensures EntriesFrom(raw, q) == es[1..] {
        EntriesPrinted(raw, q, es[1..], rest);
      }
      Associative(PrintEntry(es[0]), PrintEntries(es[1..]), rest);
      EntriesCons(raw, p, es[0], tail, es[1..]);
    }
  }

  lemma SpanParts(raw: string, p: nat, f: Span)
    requires p <= |raw| && SpanAt(raw, p) == Some(f)
    ensures
      var e := Entry(raw[p..f.eq], raw[f.eq + 1..f.soh]);
      Clean(e) && raw[p..] == PrintEntry(e) + raw[f.soh + 1..]
  {
    FindFirst(raw, '=', p);
    FindFirst(raw, SOH, f.eq);
    var e := Entry(raw[p..f.eq], raw[f.eq + 1..f.soh]);
    forall k | 0 <= k < |e.tagText| ensures e.tagText[k] != '=' { assert e.tagText[k] == raw[p + k]; }
    forall k | 0 <= k < |e.value| ensures e.value[k] != SOH { assert e.value[k] == raw[f.eq + 1 + k]; }
    assert raw[f.eq] == '=' && raw[f.soh] == SOH;
  }

  lemma NoSpan(raw: string, p: nat)
    requires p <= |raw| && SpanAt(raw, p).None?
    ensures NoField(raw[p..])
  {
    var eq := Find(raw, '=', p);
    FindFirst(raw, '=', p);
    if eq < |raw| { FindFirst(raw, SOH, eq); }
    forall j, k | 0 <= j < k < |raw[p..]| && raw[p..][j] == '=' ensures raw[p..][k] != SOH {
      assert raw[p + j] == '=' && raw[p..][k] == raw[p + k];
    }
  }

  /** A text is the print of clean entries and a rest without a complete field. */
  ghost predicate Splits(text: string, es: seq<Entry>, rest: string) {
    text == PrintEntries(es) + rest && NoField(rest) && forall i :: 0 <= i < |es| ==> Clean(es[i])
  }

  lemma SplitsCons(text: string, e: Entry, tail: string, es: seq<Entry>, rest: string)
    requires text == PrintEntry(e) + tail && Clean(e) && Splits(tail, es, rest)
    ensures Splits(text, [e] + es, rest)
  {
    assert ([e] + es)[1..] == es;
    Associative(PrintEntry(e), PrintEntries(es), rest);
  }

  /** From position `p` on, the text splits into the entries found there and `rest`. */
  ghost predicate SplitsAt(raw: string, p: nat, rest: string) {
    p <= |raw| && Splits(raw[p..], EntriesFrom(raw, p), rest)
  }

  /** And every text is of this form. */
  lemma {:induction false} EntriesParts(raw: string, p: nat) returns (rest: string)
    requires p <= |raw|
    ensures SplitsAt(raw, p, rest)
    decreases |raw| - p
  {
    var f := SpanAt(raw, p);
    if f.None? {
      rest := raw[p..];
      PartsEnd(raw, p);
    } else {
      rest := EntriesParts(raw, f.value.soh + 1);
      PartsStep(raw, p, f.value, rest);
    }
  }

  lemma PartsEnd(raw: string, p: nat)
    requires p <= |raw| && SpanAt(raw, p).None?
    ensures SplitsAt(raw, p, raw[p..])
  {
    NoSpan(raw, p);
    assert "" + raw[p..] == raw[p..];
  }

  lemma PartsStep(raw: string, p: nat, f: Span, rest: string)
    requires p <= |raw| && SpanAt(raw, p) == Some(f) && SplitsAt(raw, f.soh + 1, rest)
    ensures SplitsAt(raw, p, rest)
  {
    var e, es := Entry(raw[p..f.eq], raw[f.eq + 1..f.soh]), EntriesFrom(raw, f.soh + 1);
    SpanParts(raw, p, f);
    EntriesStep(raw, p, f, e);
    SplitsCons(raw[p..], e, raw[f.soh + 1..], es, rest);
  }

  // ------------------------------------------------------------------ the last field of a tag wins

  /** Fields with other tags, or with no readable tag, do not touch tag `k`. */
  lemma {:induction false} NotStored(parse: TagParser, fields: Fields, es: seq<Entry>, k: int)
    requires forall i :: 0 <= i < |es| ==> parse(es[i].tagText) != Some(k)
    ensures k in StoreAll(parse, fields, es) <==> k in fields
    ensures k in fields ==> StoreAll(parse, fields, es)[k] == fields[k]
    decreases |es|
  {
    if es != [] { NotStored(parse, Store(fields, parse(es[0].tagText), es[0].value), es[1..], k); }
  }

  lemma {:induction false} LastStored(parse: TagParser, fields: Fields, es: seq<Entry>, i: nat, k: int)
    requires i < |es| && parse(es[i].tagText) == Some(k)
    requires forall j :: i < j < |es| ==> parse(es[j].tagText) != Some(k)
    ensures k in StoreAll(parse, fields, es) && StoreAll(parse, fields, es)[k] == es[i].value
    decreases |es|
  {
    var next := Store(fields, parse(es[0].tagText), es[0].value);
    if i == 0 {
      NotStored(parse, next, es[1..], k);
    } else {
      LastStored(parse, next, es[1..], i - 1, k);
    }
  }

  /** The last entry whose tag reads as `k`. */
  ghost predicate LastOf(parse: TagParser, es: seq<Entry>, i: nat, k: int) {
    && i < |es| && parse(es[i].tagText) == Some(k)
    && forall j :: i < j < |es| ==> parse(es[j].tagText) != Some(k)
  }

  lemma {:induction false} FindLast(parse: TagParser, es: seq<Entry>, k: int)
    requires exists i :: 0 <= i < |es| && parse(es[i].tagText) == Some(k)
    ensures exists i: nat :: LastOf(parse, es, i, k)
    decreases |es|
  {
    var n := |es| - 1;
    if parse(es[n].tagText) == Some(k) {
      assert LastOf(parse, es, n, k);
    } else {
      var i :| 0 <= i < |es| && parse(es[i].tagText) == Some(k);
      assert es[..n][i] == es[i];
      FindLast(parse, es[..n], k);
      var last: nat :| LastOf(parse, es[..n], last, k);
      assert LastOf(parse, es, last, k);
    }
  }

  ghost predicate LastValue(parse: TagParser, es: seq<Entry>, i: nat, k: int, v: string) {
    LastOf(parse, es, i, k) && es[i].value == v
  }

  lemma StoredIff(parse: TagParser, es: seq<Entry>, k: int, v: string)
    ensures (k in StoreAll(parse, map[], es) && StoreAll(parse, map[], es)[k] == v) <==>
              exists i: nat :: LastValue(parse, es, i, k, v)
  {
    if exists i :: 0 <= i < |es| && parse(es[i].tagText) == Some(k) {
      FindLast(parse, es, k);
      var i: nat :| LastOf(parse, es, i, k);
      LastStored(parse, map[], es, i, k);
      assert LastValue(parse, es, i, k, es[i].value);
      forall j: nat | LastOf(parse, es, j, k) ensures j == i { OneLast(parse, es, i, j, k); }
    } else {
      NotStored(parse, map[], es, k);
    }
  }

  lemma OneLast(parse: TagParser, es: seq<Entry>, i: nat, j: nat, k: int)
    requires LastOf(parse, es, i, k) && LastOf(parse, es, j, k)
    ensures i == j
  {}

  /** Every text, given the entries it splits into: tag `k` has the value `v` in the result if and only
      if `v` is the value of the last entry whose tag reads as `k`. Entries with unreadable tags count
      for nothing. */
  lemma FieldIff(raw: string, es: seq<Entry>, k: int, v: string)
    requires es == EntriesFrom(raw, 0)
    ensures (k in SplitAll(raw) && SplitAll(raw)[k] == v) <==> exists i: nat :: LastValue(Stoi, es, i, k, v)
  {
    StoredIff(Stoi, es, k, v);
  }

  function Texts(fs: seq<Field>): (es: seq<Entry>)
    ensures |es| == |fs|
  { seq(|fs|, i requires 0 <= i < |fs| => Entry(Signed(fs[i].tag), fs[i].value)) }

  lemma {:induction false} PrintTexts(fs: seq<Field>)
    ensures Print(fs) == PrintEntries(Texts(fs))
    decreases |fs|
  {
    if fs != [] {
      assert Texts(fs)[1..] == Texts(fs[1..]);
      PrintTexts(fs[1..]);
    }
  }

  lemma CleanText(f: Field)
    requires Printable(f)
    ensures Clean(Entry(Signed(f.tag), f.value))
  {
    if f.tag < 0 {
      var s, d := Signed(f.tag), Decimal(-f.tag);
      forall k | 0 <= k < |s| ensures s[k] != '=' {
        if k > 0 { assert s[k] == d[k - 1]; }
      }
    }
  }

  lemma {:induction false} StoreTexts(parse: TagParser, fields: Fields, fs: seq<Field>)
    requires forall i :: 0 <= i < |fs| ==> parse(Signed(fs[i].tag)) == Some(fs[i].tag)
    ensures StoreAll(parse, fields, Texts(fs)) == LastWins(fields, fs)
    decreases |fs|
  {
    if fs != [] {
      assert Texts(fs)[1..] == Texts(fs[1..]);
      assert parse(Texts(fs)[0].tagText) == Some(fs[0].tag);
      StoreTexts(parse, fields[fs[0].tag := fs[0].value], fs[1..]);
    }
  }

  // ------------------------------------------------------------------ built messages

  /** All fields of a built message: header, body fields, trailer. */
  function Framed(fs: seq<Field>): seq<Field> {
    [Field(8, "FIX.4.2"), Field(9, Decimal(|Print(fs)|))] + fs
    + [Field(10, Padded(ByteSum(Covered(Print(fs))) % 256, 3))]
  }

  lemma {:induction false} PrintAppend(a: seq<Field>, b: seq<Field>)
    ensures Print(a + b) == Print(a) + Print(b)
    decreases |a|
  {
    if a == [] {
      assert a + b == b;
    } else {
      assert (a + b)[1..] == a[1..] + b;
      PrintAppend(a[1..], b);
    }
  }

  lemma PrintOne(f: Field)
    ensures Print([f]) == PrintField(f)
  {
    assert PrintField(f) + "" == PrintField(f);
  }

  lemma TagTexts()
    ensures Signed(8) == "8" && Signed(9) == "9" && Signed(10) == "10"
  {
    assert Decimal(1) == "1";
  }

  lemma BuiltIsPrinted(fs: seq<Field>)
    ensures Build(Print(fs)) == Print(Framed(fs))
  {
    var body := Print(fs);
    var header := [Field(8, "FIX.4.2"), Field(9, Decimal(|body|))];
    var d := Padded(ByteSum(Covered(body)) % 256, 3);
    PrintAppend(header + fs, [Field(10, d)]);
    PrintAppend(header, fs);
    CoveredIsPrinted(fs);
    TrailerField(d);
  }

  lemma CoveredIsPrinted(fs: seq<Field>)
    ensures Covered(Print(fs)) == Print([Field(8, "FIX.4.2"), Field(9, Decimal(|Print(fs)|))]) + Print(fs)
  {
    var body := Print(fs);
    HeaderFields(|body|);
    Associative("8=FIX.4.2" + [SOH], "9=" + Decimal(|body|) + [SOH], body);
  }

  lemma TrailerField(d: string)
    ensures Print([Field(10, d)]) == "10=" + d + [SOH]
  {
    TagTexts();
    PrintOne(Field(10, d));
    assert "10" + "=" == "10=";
  }

  lemma HeaderFields(n: nat)
    ensures Print([Field(8, "FIX.4.2"), Field(9, Decimal(n))])
         == "8=FIX.4.2" + [SOH] + ("9=" + Decimal(n) + [SOH])
  {
    var f8, f9 := Field(8, "FIX.4.2"), Field(9, Decimal(n));
    TagTexts();
    PrintOne(f9);
    assert [f8, f9][1..] == [f9];
    assert "8" + "=" + "FIX.4.2" == "8=FIX.4.2" && "9" + "=" == "9=";
  }

  /** Field round trip: splitting a built message gives the last-wins map of the header fields,
      the listed fields and the trailer. */
  lemma FieldRoundTrip(fs: seq<Field>)
    requires AllPrintable(fs)
    ensures SplitAll(Build(Print(fs))) == LastWins(map[], Framed(fs))
  {
    BuiltIsPrinted(fs);
    assert AllPrintable(Framed(fs)) by { FramedPrintable(fs); }
    forall i | 0 <= i < |Framed(fs)| ensures Stoi(Signed(Framed(fs)[i].tag)) == Some(Framed(fs)[i].tag) {
      assert Printable(Framed(fs)[i]);
      StoiSigned(Framed(fs)[i].tag);
    }
    forall i | 0 <= i < |Framed(fs)| ensures Clean(Texts(Framed(fs))[i]) { CleanText(Framed(fs)[i]); }
    PrintTexts(Framed(fs));
    assert Print(Framed(fs))[0..] == Print(Framed(fs)) + "";
    EntriesPrinted(Print(Framed(fs)), 0, Texts(Framed(fs)), "");
    StoreTexts(Stoi, map[], Framed(fs));
  }

  lemma FramedPrintable(fs: seq<Field>)
    requires AllPrintable(fs)
    ensures AllPrintable(Framed(fs))
  {
    var all := Framed(fs);
    DigitsSohFree(Decimal(|Print(fs)|));
    DigitsSohFree(Padded(ByteSum(Covered(Print(fs))) % 256, 3));
    assert SohFree("FIX.4.2");
    forall i | 0 <= i < |all| ensures Printable(all[i]) {
      if 2 <= i < |all| - 1 { assert all[i] == fs[i - 2]; }
    }
  }

  lemma DigitsSohFree(d: string)
    requires AllDigits(d)
    ensures SohFree(d)
  {}
}
