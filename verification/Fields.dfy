/**
 Tagged field encoding (lib/fields.js): a record is a run of fields, each its
 number, its length and its value. A reader skips the numbers it does not know
 and gets null for the fields a record lacks; an edit keeps the fields it does
 not know byte for byte. A link field's value is a place in the list of links.
 */
module Fields {
  import opened Varint
  import opened Options

  datatype Kind = String | Text | Int | Uint | Float | Bool | Raw | Ref | SpaceKey | Link

  datatype Field = Field(name: string, kind: Kind)

  type Id = nat

  /** A value: of a link field its target, of another its encoding (each kind's own encoding taken as one to one). */
  datatype Value = Plain(bytes: Bytes) | LinkTo(target: Id)

  /** A field as it stands in a record, with the bytes it takes there. */
  datatype Chunk = Chunk(number: nat, payload: Bytes, raw: Bytes)

  /** What an edit starts from. */
  datatype Kept = Kept(fields: Bytes, links: seq<Id>)

  datatype Record = Record(fields: Bytes, links: seq<Id>)

  type Values = map<string, Value>
  type Decoded = map<string, Option<Value>>

  ghost predicate DistinctNames(fields: seq<Field>) {
    forall i, j :: 0 <= i < j < |fields| ==> fields[i].name != fields[j].name
  }

  // --- the bytes as a run of fields ---

  function FirstChunk(b: Bytes): (r: Option<Chunk>)
    ensures r.Some? ==> r.value.raw != [] && r.value.raw <= b
  {
    var n := DecodeUint(b);
    if n.None? then None
    else
      var len := DecodeUint(b[n.value.size..]);
      if len.None? then None
      else
        var start := n.value.size + len.value.size;
        if start + len.value.value > |b| then None
        else Some(Chunk(n.value.value, b[start..start + len.value.value], b[..start + len.value.value]))
  }

  function Parse(b: Bytes): Option<seq<Chunk>> {
    if b == [] then Some([])
    else
      var first := FirstChunk(b);
      if first.None? then None
      else
        var rest := Parse(b[|first.value.raw|..]);
        if rest.None? then None else Some([first.value] + rest.value)
  }

  function Prefixed(first: seq<Chunk>, rest: Option<seq<Chunk>>): Option<seq<Chunk>> {
    if rest.None? then None else Some(first + rest.value)
  }

  /** A chunk whose bytes read as itself. */
  predicate Good(c: Chunk) {
    FirstChunk(c.raw) == Some(c)
  }

  function Concat(chunks: seq<Chunk>): Bytes {
    if chunks == [] then [] else chunks[0].raw + Concat(chunks[1..])
  }

  lemma FirstIsLocal(b: Bytes, rest: Bytes)
    requires FirstChunk(b).Some?
    ensures FirstChunk(FirstChunk(b).value.raw + rest) == FirstChunk(b)
  {
    hide DecodeUint;
    var n := DecodeUint(b).value;
    var tail := b[n.size..];
    var len := DecodeUint(tail).value;
    var start := n.size + len.size;
    var raw := b[..start + len.value];
    var after := raw[start..];
    assert b[..n.size] + (tail[..len.size] + (after + rest)) == raw + rest;
    UintIsLocal(b, tail[..len.size] + (after + rest));
    UintIsLocal(tail, after + rest);
    assert (raw + rest)[n.size..] == tail[..len.size] + (after + rest);
    assert (raw + rest)[start..start + len.value] == b[start..start + len.value];
    assert (raw + rest)[..start + len.value] == raw;
  }

  lemma {:induction false} ParseGivesGood(b: Bytes)
    requires Parse(b).Some?
    ensures forall c :: c in Parse(b).value ==> Good(c)
  {
    if b != [] {
      var first := FirstChunk(b).value;
      FirstIsLocal(b, []);
      assert first.raw + [] == first.raw;
      ParseGivesGood(b[|first.raw|..]);
    }
  }

  lemma ParseOfCons(c: Chunk, rest: Bytes)
    requires Good(c)
    ensures Parse(c.raw + rest) == Prefixed([c], Parse(rest))
  {
    FirstIsLocal(c.raw, rest);
    ParseHead(c.raw + rest, c);
    assert (c.raw + rest)[|c.raw|..] == rest;
  }

  lemma ParseHead(b: Bytes, c: Chunk)
    requires FirstChunk(b) == Some(c)
    ensures Parse(b) == Prefixed([c], Parse(b[|c.raw|..]))
  {
    hide FirstChunk;
    assert b != [] by {
      assert c.raw <= b;
    }
  }

  lemma {:induction false} ParseOfConcat(chunks: seq<Chunk>)
    requires forall c :: c in chunks ==> Good(c)
    ensures Parse(Concat(chunks)) == Some(chunks)
  {
    hide FirstChunk, Good;
    if chunks != [] {
      assert chunks[0] in chunks && forall d :: d in chunks[1..] ==> d in chunks;
      ParseOfConcat(chunks[1..]);
      ParseOfCons(chunks[0], Concat(chunks[1..]));
      assert chunks == [chunks[0]] + chunks[1..];
    }
  }

  // --- a loop over the entries ---

  /** The entries before `start` are `seen`. */
  ghost predicate ReadSoFar(b: Bytes, start: nat, seen: seq<Chunk>) {
    start <= |b| && Parse(b) == Prefixed(seen, Parse(b[start..]))
  }

  lemma ReadNothing(b: Bytes)
    ensures ReadSoFar(b, 0, [])
  {
    hide Parse;
    assert b[0..] == b;
    if Parse(b).Some? {
      assert [] + Parse(b).value == Parse(b).value;
    }
  }

  lemma ReadOne(b: Bytes, start: nat, seen: seq<Chunk>)
    requires ReadSoFar(b, start, seen) && start < |b|
    ensures FirstChunk(b[start..]).None? ==> Parse(b).None?
    ensures
      FirstChunk(b[start..]).Some? ==>
        var c := FirstChunk(b[start..]).value;
        ReadSoFar(b, start + |c.raw|, seen + [c]) && (Parse(b).Some? ==> c in Parse(b).value)
  {
    hide FirstChunk;
    if FirstChunk(b[start..]).Some? {
      var c := FirstChunk(b[start..]).value;
      ParseHead(b[start..], c);
      assert b[start..][|c.raw|..] == b[start + |c.raw|..];
      var rest := Parse(b[start + |c.raw|..]);
      if rest.Some? {
        assert seen + ([c] + rest.value) == (seen + [c]) + rest.value;
        assert (seen + [c])[|seen|] == c;
      }
    }
  }

  lemma ReadAll(b: Bytes, seen: seq<Chunk>)
    requires ReadSoFar(b, |b|, seen)
    ensures Parse(b) == Some(seen)
  {
    assert b[|b|..] == [] && seen + [] == seen;
  }

  function FieldChunk(number: nat, payload: Bytes): Chunk
    requires number < LIMIT && |payload| < LIMIT
  {
    Chunk(number, payload, EncodeUint(number) + EncodeUint(|payload|) + payload)
  }

  lemma FieldChunkGood(number: nat, payload: Bytes)
    requires number < LIMIT && |payload| < LIMIT
    ensures Good(FieldChunk(number, payload))
  {
    var n, len := EncodeUint(number), EncodeUint(|payload|);
    var raw := n + len + payload;
    assert raw == n + (len + payload);
    UintRoundTrip(number, len + payload);
    assert raw[|n|..] == len + payload;
    UintRoundTrip(|payload|, payload);
    assert raw[|n| + |len|..|n| + |len| + |payload|] == payload && raw[..|raw|] == raw;
  }

  // --- reading ---

  /** The last chunk numbered `n`: a later one wins. */
  function LastOf(chunks: seq<Chunk>, n: nat): (r: Option<Chunk>)
    ensures r.Some? ==> r.value in chunks && r.value.number == n
    ensures r.None? <==> forall c :: c in chunks ==> c.number != n
  {
    if chunks == [] then None
    else
      var init, last := chunks[..|chunks| - 1], chunks[|chunks| - 1];
      assert chunks == init + [last];
      if last.number == n then Some(last) else LastOf(init, n)
  }

  /** A field's value; None: a link past the record's links. */
  function ValueOf(kind: Kind, payload: Bytes, links: seq<Id>): Option<Value> {
    if kind != Link then Some(Plain(payload))
    else
      var at := DecodeUint(payload);
      if at.None? || at.value.value >= |links| then None else Some(LinkTo(links[at.value.value]))
  }

  predicate Readable(fields: seq<Field>, c: Chunk, links: seq<Id>) {
    1 <= c.number <= |fields| ==> ValueOf(fields[c.number - 1].kind, c.payload, links).Some?
  }

  /** Field `i`'s value in these chunks: null where there is none. */
  function FieldValue(fields: seq<Field>, chunks: seq<Chunk>, links: seq<Id>, i: nat): Option<Value>
    requires i < |fields|
  {
    var c := LastOf(chunks, i + 1);
    if c.None? then None else ValueOf(fields[i].kind, c.value.payload, links)
  }

  function AllValues(fields: seq<Field>, chunks: seq<Chunk>, links: seq<Id>): Decoded
    requires DistinctNames(fields)
  {
    map i | 0 <= i < |fields| :: fields[i].name := FieldValue(fields, chunks, links, i)
  }

  ghost predicate AllReadable(fields: seq<Field>, chunks: seq<Chunk>, links: seq<Id>) {
    forall c :: c in chunks ==> Readable(fields, c, links)
  }

  ghost function DecodeOf(fields: seq<Field>, b: Bytes, links: seq<Id>): Option<Decoded>
    requires DistinctNames(fields)
  {
    var chunks := Parse(b);
    if chunks.None? || !AllReadable(fields, chunks.value, links) then None
    else Some(AllValues(fields, chunks.value, links))
  }

  lemma LastOfSnoc(chunks: seq<Chunk>, c: Chunk, n: nat)
    ensures LastOf(chunks + [c], n) == if c.number == n then Some(c) else LastOf(chunks, n)
  {
    assert (chunks + [c])[..|chunks|] == chunks;
  }

  /** One more entry: its field's value is replaced, nothing else. */
  function Reassigned(fields: seq<Field>, values: Decoded, c: Chunk, links: seq<Id>): Decoded {
    if 1 <= c.number <= |fields| then values[fields[c.number - 1].name := ValueOf(fields[c.number - 1].kind,
      c.payload, links)]
    else values
  }

  ghost function Names(fields: seq<Field>): set<string> {
    set i | 0 <= i < |fields| :: fields[i].name
  }

  lemma ValueAt(fields: seq<Field>, chunks: seq<Chunk>, links: seq<Id>, i: nat)
    requires DistinctNames(fields) && i < |fields|
    ensures fields[i].name in AllValues(fields, chunks, links)
    ensures AllValues(fields, chunks, links)[fields[i].name] == FieldValue(fields, chunks, links, i)
  {
  }

  lemma ValuesNamed(fields: seq<Field>, chunks: seq<Chunk>, links: seq<Id>)
    requires DistinctNames(fields)
    ensures AllValues(fields, chunks, links).Keys == Names(fields)
  {
  }

  /** A map is told by its values at the fields' names. */
  lemma SameAtNames(fields: seq<Field>, a: Decoded, b: Decoded)
    requires a.Keys == Names(fields) && b.Keys == Names(fields)
    requires forall i :: 0 <= i < |fields| ==> fields[i].name in Names(fields) && a[fields[i].name] == b[fields[i].name]
    ensures a == b
  {
    forall name | name in Names(fields)
      ensures a[name] == b[name]
    {
      var i :| 0 <= i < |fields| && fields[i].name == name;
    }
  }

  lemma OneMoreChunk(fields: seq<Field>, chunks: seq<Chunk>, links: seq<Id>, c: Chunk)
    requires DistinctNames(fields)
    ensures AllValues(fields, chunks + [c], links) == Reassigned(fields, AllValues(fields, chunks, links), c, links)
  {
    hide AllValues, ValueOf, LastOf;
    var before, after := AllValues(fields, chunks, links), AllValues(fields, chunks + [c], links);
    var expected := Reassigned(fields, before, c, links);
    ValuesNamed(fields, chunks, links);
    ValuesNamed(fields, chunks + [c], links);
    forall i | 0 <= i < |fields|
      ensures fields[i].name in Names(fields) && expected[fields[i].name] == after[fields[i].name]
    {
      LastOfSnoc(chunks, c, i + 1);
      ValueAt(fields, chunks, links, i);
      ValueAt(fields, chunks + [c], links, i);
    }
    assert expected.Keys == Names(fields);
    SameAtNames(fields, expected, after);
  }

  method Decode(fields: seq<Field>, b: Bytes, links: seq<Id>) returns (out: Option<Decoded>)
    requires DistinctNames(fields)
    ensures out == DecodeOf(fields, b, links)
  {
    hide FirstChunk, Parse, AllValues, ValueOf, ReadSoFar;
    var values := NoValues(fields, links);
    var start := 0;
    ghost var seen: seq<Chunk> := [];
    ReadNothing(b);
    while start < |b|
      invariant start <= |b| && ReadSoFar(b, start, seen)
      invariant AllReadable(fields, seen, links)
      invariant values == AllValues(fields, seen, links)
      decreases |b| - start
    {
      var first := FirstChunk(b[start..]);
      ReadOne(b, start, seen);
      if first.None? {
        return None;
      }
      var c := first.value;
      OneMoreChunk(fields, seen, links, c);
      if 1 <= c.number <= |fields| {
        var v := ValueOf(fields[c.number - 1].kind, c.payload, links);
        if v.None? {
          assert !Readable(fields, c, links);
          return None;
        }
        values := values[fields[c.number - 1].name := v];
      }
      start, seen := start + |c.raw|, seen + [c];
    }
    ReadAll(b, seen);
    return Some(values);
  }

  method NoValues(fields: seq<Field>, ghost links: seq<Id>) returns (values: Decoded)
    requires DistinctNames(fields)
    ensures values == AllValues(fields, [], links)
  {
    values := map i | 0 <= i < |fields| :: fields[i].name := None;
  }

  // --- writing ---

  /** The chunks of the fields numbered beyond those declared. */
  function Unknown(declared: nat, chunks: seq<Chunk>): (r: seq<Chunk>)
    ensures forall c :: c in r ==> c in chunks && !(1 <= c.number <= declared)
  {
    if chunks == [] then []
    else
      var init, last := chunks[..|chunks| - 1], chunks[|chunks| - 1];
      assert chunks == init + [last];
      Unknown(declared, init) + if 1 <= last.number <= declared then [] else [last]
  }

  datatype Parts = Parts(chunks: seq<Chunk>, links: seq<Id>)

  function IndexOf(links: seq<Id>, id: Id): (at: nat)
    ensures at <= |links|
    ensures at < |links| ==> links[at] == id
    ensures at == |links| ==> id !in links
  {
    if links == [] then 0
    else if links[0] == id then 0
    else 1 + IndexOf(links[1..], id)
  }

  /** What `validate` checked, and sizes a buffer can have. */
  ghost predicate Fits(fields: seq<Field>, values: Values, room: nat) {
    && |fields| + room < LIMIT
    && forall i :: 0 <= i < |fields| && fields[i].name in values ==>
         match values[fields[i].name]
         case Plain(bytes) => fields[i].kind != Link && |bytes| < LIMIT
         case LinkTo(_) => fields[i].kind == Link
  }

  /** The first `n` fields, their link targets added to `links` where missing. */
  function EncodeFields(fields: seq<Field>, values: Values, links: seq<Id>, n: nat): (p: Parts)
    requires n <= |fields| && Fits(fields, values, |links|)
    ensures links <= p.links && |p.links| <= |links| + n
  {
    if n == 0 then Parts([], links)
    else
      var before := EncodeFields(fields, values, links, n - 1);
      var f := fields[n - 1];
      if f.name !in values then before
      else match values[f.name]
        case Plain(bytes) => Parts(before.chunks + [FieldChunk(n, bytes)], before.links)
        case LinkTo(target) =>
          var at := IndexOf(before.links, target);
          UintIsShort(at);
          Parts(before.chunks + [FieldChunk(n, EncodeUint(at))],
            if at < |before.links| then before.links else before.links + [target])
  }

  ghost predicate Once(links: seq<Id>) {
    forall i, j :: 0 <= i < j < |links| ==> links[i] != links[j]
  }

  /** The target field `i` is given. */
  predicate Targets(fields: seq<Field>, values: Values, i: nat, id: Id)
    requires i < |fields|
  {
    fields[i].name in values && values[fields[i].name] == LinkTo(id)
  }

  /** One of the first `n` fields is given this target. */
  ghost predicate Linked(fields: seq<Field>, values: Values, n: nat, id: Id)
    requires n <= |fields|
  {
    exists i :: 0 <= i < n && Targets(fields, values, i, id)
  }

  lemma LinkedOneMore(fields: seq<Field>, values: Values, n: nat, id: Id)
    requires 0 < n <= |fields|
    ensures Linked(fields, values, n, id) <==> Linked(fields, values, n - 1, id) || Targets(fields, values, n - 1, id)
  {
  }

  lemma LinksOneMore(fields: seq<Field>, values: Values, links: seq<Id>, n: nat)
    requires 0 < n <= |fields| && Fits(fields, values, |links|)
    ensures
      var before, p := EncodeFields(fields, values, links, n - 1), EncodeFields(fields, values, links, n);
      && (Once(before.links) ==> Once(p.links))
      && forall id :: id in p.links <==> id in before.links || Targets(fields, values, n - 1, id)
  {
  }

  /** The list of links holds those it held and each target given, no target twice. */
  lemma {:induction false} LinksOnce(fields: seq<Field>, values: Values, links: seq<Id>, n: nat)
    requires n <= |fields| && Fits(fields, values, |links|)
    ensures
      var p := EncodeFields(fields, values, links, n);
      && (Once(links) ==> Once(p.links))
      && forall id :: id in p.links <==> id in links || Linked(fields, values, n, id)
  {
    hide Targets, Once, Linked;
    if n == 0 {
      NothingLinked(fields, values);
    } else {
      LinksOnce(fields, values, links, n - 1);
      LinksOneMore(fields, values, links, n);
      hide EncodeFields;
      var p := EncodeFields(fields, values, links, n);
      forall id ensures id in p.links <==> id in links || Linked(fields, values, n, id) {
        LinkedOneMore(fields, values, n, id);
      }
    }
  }

  lemma NothingLinked(fields: seq<Field>, values: Values)
    ensures forall id :: !Linked(fields, values, 0, id)
  {
  }

  lemma UintIsShort(n: nat)
    requires n < LIMIT
    ensures |EncodeUint(n)| <= 9
  {
  }

  function EncodeOf(fields: seq<Field>, values: Values, keep: Option<Kept>): Option<Record>
    requires Fits(fields, values, if keep.Some? then |keep.value.links| else 0)
  {
    var kept := if keep.Some? then Parse(keep.value.fields) else Some([]);
    if kept.None? then None
    else
      var unknown := Unknown(|fields|, kept.value);
      var parts := EncodeFields(fields, values, if unknown != [] then keep.value.links else [], |fields|);
      Some(Record(Concat(parts.chunks + unknown), parts.links))
  }

  lemma UnknownSnoc(declared: nat, chunks: seq<Chunk>, c: Chunk)
    ensures Unknown(declared, chunks + [c]) == Unknown(declared, chunks) + if 1 <= c.number <= declared then [] else [c]
  {
    assert (chunks + [c])[..|chunks|] == chunks;
  }

  // The loop of `Unknown` over a record's bytes.
  method UnknownOf(declared: nat, b: Bytes) returns (out: Option<seq<Chunk>>)
    ensures out == if Parse(b).None? then None else Some(Unknown(declared, Parse(b).value))
  {
    hide FirstChunk, Parse, ReadSoFar, Unknown;
    var unknown := NoneUnknown(declared);
    var start := 0;
    ghost var seen: seq<Chunk> := [];
    ReadNothing(b);
    while start < |b|
      invariant start <= |b| && ReadSoFar(b, start, seen)
      invariant unknown == Unknown(declared, seen)
      decreases |b| - start
    {
      var first := FirstChunk(b[start..]);
      ReadOne(b, start, seen);
      if first.None? {
        return None;
      }
      var c := first.value;
      UnknownSnoc(declared, seen, c);
      if !(1 <= c.number <= declared) {
        unknown := unknown + [c];
      }
      start, seen := start + |c.raw|, seen + [c];
    }
    ReadAll(b, seen);
    return Some(unknown);
  }

  function NoneUnknown(declared: nat): (r: seq<Chunk>)
    ensures r == Unknown(declared, [])
  {
    []
  }

  lemma {:induction false} ConcatSnoc(chunks: seq<Chunk>, c: Chunk)
    ensures Concat(chunks + [c]) == Concat(chunks) + c.raw
  {
    if chunks == [] {
      assert Concat([c]) == c.raw + Concat([]);
      assert [] + [c] == [c];
    } else {
      assert (chunks + [c])[1..] == chunks[1..] + [c];
      ConcatSnoc(chunks[1..], c);
    }
  }

  method Encode(fields: seq<Field>, values: Values, keep: Option<Kept>) returns (out: Option<Record>)
    requires Fits(fields, values, if keep.Some? then |keep.value.links| else 0)
    ensures out == EncodeOf(fields, values, keep)
  {
    hide Parse, Unknown, EncodeFields, Concat;
    var unknown, links := NoneUnknown(|fields|), [];
    if keep.Some? {
      var kept := UnknownOf(|fields|, keep.value.fields);
      if kept.None? {
        return None;
      }
      unknown := kept.value;
    }
    if unknown != [] {
      links := keep.value.links;
    }
    ghost var parts := EncodeFields(fields, values, links, |fields|);
    var bytes;
    bytes, links := WriteFields(fields, values, links);
    bytes := WriteRaw(bytes, parts.chunks, unknown);
    return Some(Record(bytes, links));
  }

  method WriteFields(fields: seq<Field>, values: Values, kept: seq<Id>) returns (bytes: Bytes, links: seq<Id>)
    requires Fits(fields, values, |kept|)
    ensures bytes == Concat(EncodeFields(fields, values, kept, |fields|).chunks)
    ensures links == EncodeFields(fields, values, kept, |fields|).links
  {
    hide Concat, EncodeUint;
    bytes, links := [], kept;
    ghost var chunks: seq<Chunk> := [];
    assert Concat([]) == [] by { EmptyConcat(); }
    for i := 0 to |fields|
      invariant Parts(chunks, links) == EncodeFields(fields, values, kept, i)
      invariant bytes == Concat(chunks)
    {
      if fields[i].name in values {
        var payload;
        match values[fields[i].name] {
          case Plain(b) => payload := b;
          case LinkTo(target) =>
            var at := IndexOf(links, target);
            if at == |links| {
              links := links + [target];
            }
            UintIsShort(at);
            payload := EncodeUint(at);
        }
        var c := FieldChunk(i + 1, payload);
        ConcatSnoc(chunks, c);
        bytes := bytes + c.raw;
        chunks := chunks + [c];
      }
    }
  }

  lemma EmptyConcat()
    ensures Concat([]) == []
  {
  }

  method WriteRaw(head: Bytes, ghost known: seq<Chunk>, unknown: seq<Chunk>) returns (bytes: Bytes)
    requires head == Concat(known)
    ensures bytes == Concat(known + unknown)
  {
    hide Concat;
    bytes := head;
    assert known + unknown[..0] == known;
    for i := 0 to |unknown|
      invariant bytes == Concat(known + unknown[..i])
    {
      ConcatSnoc(known + unknown[..i], unknown[i]);
      assert (known + unknown[..i]) + [unknown[i]] == known + unknown[..i + 1];
      bytes := bytes + unknown[i].raw;
    }
    assert unknown[..|unknown|] == unknown;
  }

  // --- what a newer declaration reads ---

  function Given(values: Values, name: string): Option<Value> {
    if name in values then Some(values[name]) else None
  }

  lemma {:induction false} LastOfConcat(a: seq<Chunk>, b: seq<Chunk>, n: nat)
    ensures LastOf(a + b, n) == if LastOf(b, n).Some? then LastOf(b, n) else LastOf(a, n)
  {
    hide LastOf;
    if b == [] {
      assert a + b == a;
    } else {
      var init, last := b[..|b| - 1], b[|b| - 1];
      LastOfConcat(a, init, n);
      LastOfSnoc(a + init, last, n);
      LastOfSnoc(init, last, n);
      assert b == init + [last] && a + b == (a + init) + [last];
    }
  }

  lemma {:induction false} UnknownKeepsLast(declared: nat, chunks: seq<Chunk>, n: nat)
    ensures LastOf(Unknown(declared, chunks), n) == if 1 <= n <= declared then None else LastOf(chunks, n)
  {
    hide LastOf, Unknown;
    if chunks == [] {
      assert NoneUnknown(declared) == [];
    } else {
      var init, last := chunks[..|chunks| - 1], chunks[|chunks| - 1];
      UnknownKeepsLast(declared, init, n);
      assert chunks == init + [last];
      UnknownSnoc(declared, init, last);
      LastOfSnoc(init, last, n);
      if 1 <= last.number <= declared {
        assert Unknown(declared, init) + [] == Unknown(declared, init);
      } else {
        LastOfSnoc(Unknown(declared, init), last, n);
      }
    }
  }

  /** Links added at the end change no value. */
  lemma MoreLinks(kind: Kind, payload: Bytes, links: seq<Id>, more: seq<Id>)
    requires links <= more && ValueOf(kind, payload, links).Some?
    ensures ValueOf(kind, payload, more) == ValueOf(kind, payload, links)
  {
  }

  lemma LinkReadBack(at: nat, links: seq<Id>)
    requires at < |links| && at < LIMIT
    ensures ValueOf(Link, EncodeUint(at), links) == Some(LinkTo(links[at]))
  {
    UintRoundTrip(at, []);
    assert EncodeUint(at) + [] == EncodeUint(at);
  }

  lemma {:induction false} WrittenAreGood(fields: seq<Field>, values: Values, links: seq<Id>, n: nat)
    requires n <= |fields| && Fits(fields, values, |links|)
    ensures forall c :: c in EncodeFields(fields, values, links, n).chunks ==> Good(c) && 1 <= c.number <= n
  {
    hide FieldChunk, Good, EncodeUint;
    if n > 0 {
      WrittenAreGood(fields, values, links, n - 1);
      var before := EncodeFields(fields, values, links, n - 1);
      if fields[n - 1].name in values {
        match values[fields[n - 1].name]
        case Plain(bytes) =>
          WrittenIsGood(n, bytes);
        case LinkTo(target) =>
          var at := IndexOf(before.links, target);
          UintIsShort(at);
          WrittenIsGood(n, EncodeUint(at));
      }
    }
  }

  lemma WrittenIsGood(number: nat, payload: Bytes)
    requires number < LIMIT && |payload| < LIMIT
    ensures Good(FieldChunk(number, payload)) && FieldChunk(number, payload).number == number &&
        FieldChunk(number, payload).payload == payload
  {
    FieldChunkGood(number, payload);
  }

  /** The entry `EncodeFields` writes for field `n - 1` reads as the value given. */
  lemma WrittenReadsBack(fields: seq<Field>, values: Values, links: seq<Id>, n: nat, more: seq<Id>)
    requires 1 <= n <= |fields| && Fits(fields, values, |links|) && fields[n - 1].name in values
    requires EncodeFields(fields, values, links, n).links <= more
    ensures
      var before, after := EncodeFields(fields, values, links, n - 1).chunks,
        EncodeFields(fields, values, links, n).chunks;
      && |after| == |before| + 1 && after == before + [after[|before|]] && after[|before|].number == n
      && ValueOf(fields[n - 1].kind, after[|before|].payload, more) == Some(values[fields[n - 1].name])
  {
    hide EncodeUint;
    var before := EncodeFields(fields, values, links, n - 1);
    match values[fields[n - 1].name]
    case Plain(bytes) =>
    case LinkTo(target) =>
      var at := IndexOf(before.links, target);
      UintIsShort(at);
      LinkReadBack(at, more);
  }

  lemma FieldStep(fields: seq<Field>, values: Values, links: seq<Id>, n: nat)
    requires 1 <= n <= |fields| && Fits(fields, values, |links|)
    ensures EncodeFields(fields, values, links, n - 1).links <= EncodeFields(fields, values, links, n).links
    ensures fields[n - 1].name !in values ==>
        EncodeFields(fields, values, links, n) == EncodeFields(fields, values, links, n - 1)
  {
    hide FieldChunk, EncodeUint, IndexOf;
  }

  /** Each field written reads as its value, with any links added after. */
  lemma {:induction false} WrittenValue(fields: seq<Field>, values: Values, links: seq<Id>, n: nat, i: nat,
          more: seq<Id>)
    requires i < n <= |fields| && Fits(fields, values, |links|)
    requires EncodeFields(fields, values, links, n).links <= more
    ensures FieldValue(fields, EncodeFields(fields, values, links, n).chunks, more, i) == Given(values, fields[i].name)
    ensures LastOf(EncodeFields(fields, values, links, n).chunks, i + 1).Some? <==> fields[i].name in values
  {
    hide ValueOf, LastOf, Good, EncodeFields, Fits;
    FieldStep(fields, values, links, n);
    var before, after := EncodeFields(fields, values, links, n - 1), EncodeFields(fields, values, links, n);
    if fields[n - 1].name in values {
      WrittenReadsBack(fields, values, links, n, more);
      LastOfSnoc(before.chunks, after.chunks[|before.chunks|], i + 1);
    }
    if i < n - 1 {
      WrittenValue(fields, values, links, n - 1, i, more);
    } else {
      NotYetWritten(fields, values, links, n - 1);
    }
  }

  lemma NotYetWritten(fields: seq<Field>, values: Values, links: seq<Id>, n: nat)
    requires n < |fields| && Fits(fields, values, |links|)
    ensures LastOf(EncodeFields(fields, values, links, n).chunks, n + 1) == None
  {
    WrittenAreGood(fields, values, links, n);
  }

  /** What `newer` reads in the fields `older` writes followed by the entries it keeps. */
  lemma GrownValue(older: seq<Field>, newer: seq<Field>, values: Values, links: seq<Id>, kept: seq<Chunk>,
          keptLinks: seq<Id>, i: nat)
    requires older <= newer && i < |newer| && Fits(older, values, |links|)
    requires Unknown(|older|, kept) != [] ==> keptLinks <= links
    requires AllReadable(newer, kept, keptLinks)
    ensures
      var p := EncodeFields(older, values, links, |older|);
      FieldValue(newer, p.chunks + Unknown(|older|, kept), p.links, i) ==
      if i < |older| then Given(values, newer[i].name) else FieldValue(newer, kept, keptLinks, i)
  {
    hide EncodeFields, Unknown, LastOf, ValueOf, Good;
    var p, unknown := EncodeFields(older, values, links, |older|), Unknown(|older|, kept);
    LastOfConcat(p.chunks, unknown, i + 1);
    UnknownKeepsLast(|older|, kept, i + 1);
    if i < |older| {
      WrittenValue(older, values, links, |older|, i, p.links);
    } else {
      WrittenAreGood(older, values, links, |older|);
      var last := LastOf(kept, i + 1);
      if last.Some? {
        assert Readable(newer, last.value, keptLinks);
        MoreLinks(newer[i].kind, last.value.payload, keptLinks, p.links);
      }
    }
  }

  lemma GrownReadable(older: seq<Field>, newer: seq<Field>, values: Values, links: seq<Id>, kept: seq<Chunk>,
          keptLinks: seq<Id>)
    requires older <= newer && Fits(older, values, |links|)
    requires Unknown(|older|, kept) != [] ==> keptLinks <= links
    requires AllReadable(newer, kept, keptLinks)
    ensures
      var p := EncodeFields(older, values, links, |older|);
      AllReadable(newer, p.chunks + Unknown(|older|, kept), p.links)
  {
    hide Unknown, ValueOf;
    var p, unknown := EncodeFields(older, values, links, |older|), Unknown(|older|, kept);
    forall c | c in p.chunks + unknown
      ensures Readable(newer, c, p.links)
    {
      if c in unknown {
        assert Readable(newer, c, keptLinks);
        if 1 <= c.number <= |newer| {
          MoreLinks(newer[c.number - 1].kind, c.payload, keptLinks, p.links);
        }
      } else {
        WrittenReadable(older, values, links, |older|, c, p.links);
        WrittenAreGood(older, values, links, |older|);
      }
    }
  }

  lemma {:induction false} WrittenReadable(fields: seq<Field>, values: Values, links: seq<Id>, n: nat, c: Chunk,
          more: seq<Id>)
    requires n <= |fields| && Fits(fields, values, |links|)
    requires EncodeFields(fields, values, links, n).links <= more && c in EncodeFields(fields, values, links, n).chunks
    ensures Readable(fields, c, more)
  {
    hide ValueOf, FieldChunk, EncodeUint, IndexOf;
    if n > 0 {
      var before, after := EncodeFields(fields, values, links, n - 1), EncodeFields(fields, values, links, n);
      if c in before.chunks {
        WrittenReadable(fields, values, links, n - 1, c, more);
      } else {
        WrittenReadsBack(fields, values, links, n, more);
        assert c == after.chunks[|before.chunks|];
      }
    }
  }

  /**
   An edit by an older app keeps a newer app's data: read back by the newer
   app, the record has the edited values in the fields the older app knows
   and, in the others, the values it had, link targets included.
   */
  lemma EditKeepsNewerFields(older: seq<Field>, newer: seq<Field>, values: Values, was: Kept)
    requires older <= newer && DistinctNames(newer) && Fits(older, values, |was.links|)
    requires DecodeOf(newer, was.fields, was.links).Some?
    ensures EncodeOf(older, values, Some(was)).Some?
    ensures
      var r := EncodeOf(older, values, Some(was)).value;
      var before, after := DecodeOf(newer, was.fields, was.links).value, DecodeOf(newer, r.fields, r.links);
      && after.Some? && after.value.Keys == before.Keys == Names(newer)
      && forall i :: 0 <= i < |newer| ==>
           newer[i].name in Names(newer) &&
           after.value[newer[i].name] == if i < |older| then Given(values, newer[i].name) else before[newer[i].name]
  {
    hide EncodeFields, Unknown, Parse, AllReadable, AllValues, FieldValue, Fits;
    var kept := Parse(was.fields).value;
    var links := if Unknown(|older|, kept) != [] then was.links else [];
    FitsLess(older, values, |was.links|);
    ParseGivesGood(was.fields);
    GrownDecode(older, newer, values, links, kept, was.links);
    ValuesNamed(newer, kept, was.links);
    forall i | 0 <= i < |newer|
      ensures AllValues(newer, kept, was.links)[newer[i].name] == FieldValue(newer, kept, was.links, i)
      ensures newer[i].name in Names(newer)
    {
      ValueAt(newer, kept, was.links, i);
    }
  }

  lemma FitsLess(fields: seq<Field>, values: Values, room: nat)
    requires Fits(fields, values, room)
    ensures Fits(fields, values, 0)
  {
  }

  lemma GrownDecode(older: seq<Field>, newer: seq<Field>, values: Values, links: seq<Id>, kept: seq<Chunk>,
          keptLinks: seq<Id>)
    requires older <= newer && DistinctNames(newer) && Fits(older, values, |links|)
    requires Unknown(|older|, kept) != [] ==> keptLinks <= links
    requires AllReadable(newer, kept, keptLinks) && forall c :: c in kept ==> Good(c)
    ensures
      var p := EncodeFields(older, values, links, |older|);
      var after := DecodeOf(newer, Concat(p.chunks + Unknown(|older|, kept)), p.links);
      && after.Some? && after.value.Keys == Names(newer)
      && forall i :: 0 <= i < |newer| ==>
           newer[i].name in Names(newer) &&
           after.value[newer[i].name] == if i < |older| then Given(values, newer[i].name)
             else FieldValue(newer, kept, keptLinks, i)
  {
    hide EncodeFields, Unknown, Parse, AllReadable, AllValues, FieldValue, Fits, Good, Concat;
    var p, unknown := EncodeFields(older, values, links, |older|), Unknown(|older|, kept);
    var chunks := p.chunks + unknown;
    WrittenAreGood(older, values, links, |older|);
    assert forall c :: c in chunks ==> c in p.chunks || c in unknown;
    ParseOfConcat(chunks);
    GrownReadable(older, newer, values, links, kept, keptLinks);
    ValuesNamed(newer, chunks, p.links);
    forall i | 0 <= i < |newer|
      ensures newer[i].name in Names(newer)
      ensures AllValues(newer, chunks, p.links)[newer[i].name] == if i < |older| then Given(values, newer[i].name)
          else FieldValue(newer, kept, keptLinks, i)
    {
      ValueAt(newer, chunks, p.links, i);
      GrownValue(older, newer, values, links, kept, keptLinks, i);
    }
  }

  /** A record reads as written, under its own declaration and under any that appends fields: null in those. */
  lemma NewerReadsOlder(older: seq<Field>, newer: seq<Field>, values: Values)
    requires older <= newer && DistinctNames(newer) && Fits(older, values, 0)
    ensures EncodeOf(older, values, None).Some?
    ensures
      var r := EncodeOf(older, values, None).value;
      var after := DecodeOf(newer, r.fields, r.links);
      && after.Some? && after.value.Keys == Names(newer)
      && forall i :: 0 <= i < |newer| ==>
           newer[i].name in Names(newer) &&
           after.value[newer[i].name] == if i < |older| then Given(values, newer[i].name) else None
  {
    hide EncodeFields, AllValues, Fits;
    GrownDecode(older, newer, values, [], [], []);
  }

  /** An older app reads a newer app's record: the same values in the fields it knows. */
  lemma OlderReadsNewer(older: seq<Field>, newer: seq<Field>, b: Bytes, links: seq<Id>)
    requires older <= newer && DistinctNames(newer)
    requires DecodeOf(newer, b, links).Some?
    ensures
      var whole, part := DecodeOf(newer, b, links).value, DecodeOf(older, b, links);
      && part.Some? && part.value.Keys == Names(older) <= whole.Keys
      && forall name :: name in part.value ==> part.value[name] == whole[name]
  {
    hide Parse, LastOf, ValueOf, AllValues;
    var chunks := Parse(b).value;
    forall c | c in chunks
      ensures Readable(older, c, links)
    {
      assert Readable(newer, c, links);
    }
    ValuesNamed(older, chunks, links);
    ValuesNamed(newer, chunks, links);
    forall name | name in Names(older)
      ensures name in Names(newer)
      ensures AllValues(older, chunks, links)[name] == AllValues(newer, chunks, links)[name]
    {
      var i :| 0 <= i < |older| && older[i].name == name;
      ValueAt(older, chunks, links, i);
      ValueAt(newer, chunks, links, i);
    }
  }
}
