/**
 One peer's side of a range exchange (class Session of lib/ranges.js): what it
 answers to a peer's ranges and keys, as functions of the keys it holds, and the
 methods that build those answers.
 */
module RangeSession {
  import opened LogKeys
  import opened Digests
  import opened SortedKeys

  const FEW := 32 // up to this many keys a range goes no deeper
  const CHUNK := 1000 // what `Chunks` cuts by
  const MAX_SAFE := 0x1F_FFFF_FFFF_FFFF // Number.MAX_SAFE_INTEGER

  const KIND_KEYS := 0 // all of `Filter(sorted, prefix)`; awaits a `done`
  const KIND_ASK := 1 // no keys; awaits the peer's and a `done`
  const KIND_LACKED := 2 // `LackedBy`; awaits nothing
  const KIND_DONE := 3 // no keys; the last message of an answer

  datatype Message =
    | Ranges(prefix: Nibbles, parts: seq<Part>)
    | KeyList(prefix: Nibbles, kind: nat, keys: seq<Nibbles>, lengths: seq<int>)

  datatype Learnt = Learnt(key: Nibbles, length: nat)

  datatype Answer = Answer(out: seq<Message>, awaited: map<Nibbles, Part>)

  datatype KeysAnswer = KeysAnswer(out: seq<Message>, learn: seq<Learnt>, ignored: bool, done: bool,
          awaited: map<Nibbles, Part>)

  function Done(prefix: Nibbles): Message {
    KeyList(prefix, KIND_DONE, [], [])
  }

  /** The messages `CountAnswered` counts. */
  predicate Answered(m: Message) {
    m.Ranges? || m.kind == KIND_KEYS || m.kind == KIND_ASK
  }

  predicate IsDone(m: Message) {
    m.KeyList? && m.kind == KIND_DONE
  }

  predicate ValidPrefix(prefix: Nibbles) {
    |prefix| <= MAX_NIBBLES
  }

  function HeldLength(h: Held, key: Nibbles): int {
    if key in h.lengths then h.lengths[key] else -1
  }

  function LengthsOf(h: Held, keys: seq<Nibbles>): (r: seq<int>)
    ensures |r| == |keys|
  {
    seq(|keys|, i requires 0 <= i < |keys| => HeldLength(h, keys[i]))
  }

  function KeysMessage(h: Held, prefix: Nibbles, kind: nat, keys: seq<Nibbles>): Message {
    KeyList(prefix, kind, keys, LengthsOf(h, keys))
  }

  function Start(item: ItemOf, h: Held): Message
    requires forall k :: k in h.sorted ==> k in h.lengths
  {
    Ranges([], PartsOf(item, h, []))
  }

  // --- a peer's ranges ---

  /** What is sent for one sub-range whose count or digest differs. */
  function AnswerPart(item: ItemOf, h: Held, take: bool, awaited: map<Nibbles, Part>, child: Nibbles,
          theirs: Part): Answer
    requires forall k :: k in h.sorted ==> k in h.lengths
  {
    var inside := Filter(h.sorted, child);
    if !take then
      if |inside| > FEW then Answer([Ranges(child, PartsOf(item, h, child))], awaited)
      else if |inside| > 0 then Answer([KeysMessage(h, child, KIND_LACKED, inside)], awaited)
      else Answer([], awaited)
    else if theirs.count <= FEW then
      Answer([KeyList(child, KIND_ASK, [], [])], awaited[child := theirs])
    else if |inside| <= FEW then
      Answer([KeysMessage(h, child, KIND_KEYS, inside)], awaited)
    else
      Answer([Ranges(child, PartsOf(item, h, child))], awaited)
  }

  function AnswerParts(item: ItemOf, h: Held, take: bool, awaited: map<Nibbles, Part>, prefix: Nibbles,
          parts: seq<Part>, n: nat): Answer
    requires forall k :: k in h.sorted ==> k in h.lengths
    requires n <= |parts| == PARTS
  {
    if n == 0 then Answer([], awaited)
    else
      var before := AnswerParts(item, h, take, awaited, prefix, parts, n - 1);
      var child := Child(prefix, n - 1);
      if parts[n - 1] == PartOf(item, h.sorted, h.lengths, child) then before
      else
        var more := AnswerPart(item, h, take, before.awaited, child, parts[n - 1]);
        Answer(before.out + more.out, more.awaited)
  }

  function AnswerRanges(item: ItemOf, h: Held, take: bool, awaited: map<Nibbles, Part>, m: Message): Answer
    requires m.Ranges?
    requires forall k :: k in h.sorted ==> k in h.lengths
  {
    if !ValidPrefix(m.prefix) || |m.parts| != PARTS || |m.prefix| + 1 > MAX_NIBBLES then Answer([], awaited)
    else
      var all := AnswerParts(item, h, take, awaited, m.prefix, m.parts, PARTS);
      Answer(all.out + [Done(m.prefix)], all.awaited)
  }

  // --- a peer's keys ---

  predicate WellFormedKeys(m: Message)
    requires m.KeyList?
  {
    && (forall k | k in m.keys :: IsKey(k) && Within(k, m.prefix))
    && |m.lengths| == |m.keys|
    && (forall i | 0 <= i < |m.lengths| :: 0 <= m.lengths[i] <= MAX_SAFE)
  }

  /** Of the first `n` keys named, those this side lacks or holds shorter. */
  function LearnFrom(h: Held, keys: seq<Nibbles>, lengths: seq<int>, n: nat): seq<Learnt>
    requires n <= |keys| == |lengths|
    requires forall i :: 0 <= i < |lengths| ==> lengths[i] >= 0
  {
    if n == 0 then []
    else
      LearnFrom(h, keys, lengths, n - 1)
      + if lengths[n - 1] > HeldLength(h, keys[n - 1]) then [Learnt(keys[n - 1], lengths[n - 1])] else []
  }

  function ListDigest(item: ItemOf, keys: seq<Nibbles>, lengths: seq<int>, n: nat): Digest
    requires n <= |keys| == |lengths|
    requires forall i :: 0 <= i < |lengths| ==> lengths[i] >= 0
  {
    if n == 0 then ZERO
    else Xor(ListDigest(item, keys, lengths, n - 1), item(keys[n - 1], lengths[n - 1]))
  }

  /** The table of the first `n` keys and lengths named, a later one winning. */
  function TableOf(keys: seq<Nibbles>, lengths: seq<int>, n: nat): (t: map<Nibbles, int>)
    requires n <= |keys| == |lengths|
  {
    if n == 0 then map[] else TableOf(keys, lengths, n - 1)[keys[n - 1] := lengths[n - 1]]
  }

  /** Those of the first `n` of `keys` the table lacks or has shorter. */
  function LackedBy(h: Held, theirs: map<Nibbles, int>, keys: seq<Nibbles>, n: nat): seq<Nibbles>
    requires n <= |keys|
  {
    if n == 0 then []
    else
      var k := keys[n - 1];
      LackedBy(h, theirs, keys, n - 1) + if k in theirs && theirs[k] >= HeldLength(h, k) then [] else [k]
  }

  /** `keys` from index `i` on, CHUNK to a message. */
  function Chunks(h: Held, prefix: Nibbles, keys: seq<Nibbles>, i: nat): seq<Message>
    requires i <= |keys|
    decreases |keys| - i
  {
    if i == |keys| then []
    else
      var end := if i + CHUNK <= |keys| then i + CHUNK else |keys|;
      [KeysMessage(h, prefix, KIND_LACKED, keys[i..end])] + Chunks(h, prefix, keys, end)
  }

  function AnswerKeys(item: ItemOf, h: Held, take: bool, awaited: map<Nibbles, Part>, m: Message): KeysAnswer
    requires m.KeyList?
    requires forall k :: k in h.sorted ==> k in h.lengths
  {
    var none := KeysAnswer([], [], true, false, awaited);
    if !ValidPrefix(m.prefix) || |m.keys| > CHUNK then none
    else if m.kind == KIND_DONE then KeysAnswer([], [], false, true, awaited)
    else if !WellFormedKeys(m) then none
    else
      var inside := Filter(h.sorted, m.prefix);
      if m.kind == KIND_ASK then
        if |inside| > FEW then KeysAnswer([Ranges(m.prefix, PartsOf(item, h, m.prefix)), Done(m.prefix)], [], false,
          false, awaited)
        else KeysAnswer([KeysMessage(h, m.prefix, if take then KIND_KEYS else KIND_LACKED, inside), Done(m.prefix)],
          [], false, false, awaited)
      else
        var learn := LearnFrom(h, m.keys, m.lengths, |m.keys|);
        if m.kind == KIND_LACKED then KeysAnswer([], learn, false, false, awaited)
        else if m.kind != KIND_KEYS then none
        else
          var left := awaited - {m.prefix};
          if if m.prefix in awaited
             then awaited[m.prefix] != Part(|m.keys|, ListDigest(item, m.keys, m.lengths, |m.keys|))
             else |m.keys| > FEW
          then KeysAnswer([Done(m.prefix)], [], true, false, left)
          else
            var lack := LackedBy(h, TableOf(m.keys, m.lengths, |m.keys|), inside, |inside|);
            KeysAnswer(Chunks(h, m.prefix, lack, 0) + [Done(m.prefix)], learn, false, false, left)
  }

  // --- the session itself ---

  class Session {
    const keys: Keys
    var awaited: map<Nibbles, Part>

    ghost predicate Valid()
      reads this, keys, keys.digest
    {
      keys.Valid()
    }

    constructor (keys: Keys)
      requires keys.Valid()
      ensures Valid() && this.keys == keys && awaited == map[]
    {
      this.keys := keys;
      awaited := map[];
    }

    method Begin() returns (m: Message)
      requires Valid()
      ensures m == Start(keys.item, keys.View())
    {
      var parts := keys.Parts([]);
      m := Ranges([], parts);
    }

    // The loop over the 16 parts is `AnswerParts`.
    method OnRanges(m: Message, take: bool) returns (out: seq<Message>)
      requires Valid() && m.Ranges?
      modifies this`awaited
      ensures Valid()
      ensures Answer(out, awaited) == AnswerRanges(keys.item, keys.View(), take, old(awaited), m)
    {
      if !ValidPrefix(m.prefix) || |m.parts| != PARTS || |m.prefix| + 1 > MAX_NIBBLES {
        return [];
      }
      var mine := keys.Parts(m.prefix);
      out := [];
      for i := 0 to PARTS
        invariant Answer(out, awaited) == AnswerParts(keys.item, keys.View(), take, old(awaited), m.prefix, m.parts, i)
      {
        var theirs := m.parts[i];
        if theirs.count != mine[i].count || theirs.digest != mine[i].digest {
          var prefix := Child(m.prefix, i);
          if !take {
            if mine[i].count > FEW {
              var parts := keys.Parts(prefix);
              out := out + [Ranges(prefix, parts)];
            } else if mine[i].count > 0 {
              var inside := keys.Inside(prefix);
              out := out + [KeysMessage(keys.View(), prefix, KIND_LACKED, inside)];
            }
          } else if theirs.count <= FEW {
            awaited := awaited[prefix := theirs];
            out := out + [KeyList(prefix, KIND_ASK, [], [])];
          } else if mine[i].count <= FEW {
            var inside := keys.Inside(prefix);
            out := out + [KeysMessage(keys.View(), prefix, KIND_KEYS, inside)];
          } else {
            var parts := keys.Parts(prefix);
            out := out + [Ranges(prefix, parts)];
          }
        }
      }
      out := out + [Done(m.prefix)];
    }

    // The five parts of `AnswerKeys`, the ranges awaited in place.
    method OnKeys(m: Message, take: bool) returns (out: seq<Message>, learn: seq<Learnt>, ignored: bool, done: bool)
      requires Valid() && m.KeyList?
      modifies this`awaited
      ensures Valid()
      ensures KeysAnswer(out, learn, ignored, done, awaited) ==
          AnswerKeys(keys.item, keys.View(), take, old(awaited), m)
    {
      if !ValidPrefix(m.prefix) || |m.keys| > CHUNK {
        return [], [], true, false;
      }
      if m.kind == KIND_DONE {
        return [], [], false, true;
      }
      if !WellFormedKeys(m) {
        return [], [], true, false;
      }
      if m.kind == KIND_ASK {
        var count := keys.Count(m.prefix);
        if count > FEW {
          var parts := keys.Parts(m.prefix);
          return [Ranges(m.prefix, parts), Done(m.prefix)], [], false, false;
        }
        var inside := keys.Inside(m.prefix);
        return [KeysMessage(keys.View(), m.prefix, if take then KIND_KEYS else KIND_LACKED, inside), Done(m.prefix)],
          [], false, false;
      }
      learn := Longer(keys.View(), m.keys, m.lengths);
      if m.kind == KIND_LACKED {
        return [], learn, false, false;
      }
      if m.kind != KIND_KEYS {
        return [], [], true, false;
      }
      var asked := m.prefix in awaited;
      var expected := if asked then awaited[m.prefix] else EMPTY_PART;
      awaited := awaited - {m.prefix};
      var digest := DigestOfList(keys.item, m.keys, m.lengths);
      if asked && (expected.count != |m.keys| || expected.digest != digest) {
        return [Done(m.prefix)], [], true, false;
      }
      if !asked && |m.keys| > FEW {
        return [Done(m.prefix)], [], true, false;
      }
      var inside := keys.Inside(m.prefix);
      var lack := Lacked(keys.View(), TableOf(m.keys, m.lengths, |m.keys|), inside);
      out := Chunked(keys.View(), m.prefix, lack);
      out := out + [Done(m.prefix)];
      ignored, done := false, false;
    }
  }

  // The loop of `digestOf`.
  method DigestOfList(item: ItemOf, keys: seq<Nibbles>, lengths: seq<int>) returns (d: Digest)
    requires |keys| == |lengths|
    requires forall i :: 0 <= i < |lengths| ==> lengths[i] >= 0
    ensures d == ListDigest(item, keys, lengths, |keys|)
  {
    d := ZERO;
    for i := 0 to |keys|
      invariant d == ListDigest(item, keys, lengths, i)
    {
      d := Xor(d, item(keys[i], lengths[i]));
    }
  }

  // The keys named that this side lacks or holds shorter.
  method Longer(h: Held, keys: seq<Nibbles>, lengths: seq<int>) returns (learn: seq<Learnt>)
    requires |keys| == |lengths|
    requires forall i :: 0 <= i < |lengths| ==> lengths[i] >= 0
    ensures learn == LearnFrom(h, keys, lengths, |keys|)
  {
    learn := [];
    for i := 0 to |keys|
      invariant learn == LearnFrom(h, keys, lengths, i)
    {
      if lengths[i] > HeldLength(h, keys[i]) {
        learn := learn + [Learnt(keys[i], lengths[i])];
      }
    }
  }

  method Chunked(h: Held, prefix: Nibbles, keys: seq<Nibbles>) returns (out: seq<Message>)
    ensures out == Chunks(h, prefix, keys, 0)
  {
    out := [];
    var i := 0;
    while i < |keys|
      invariant 0 <= i <= |keys|
      invariant out + Chunks(h, prefix, keys, i) == Chunks(h, prefix, keys, 0)
    {
      var end := if i + CHUNK <= |keys| then i + CHUNK else |keys|;
      out := out + [KeysMessage(h, prefix, KIND_LACKED, keys[i..end])];
      i := end;
    }
  }

  // The keys held here that the peer's table lacks or has shorter.
  method Lacked(h: Held, theirs: map<Nibbles, int>, keys: seq<Nibbles>) returns (lack: seq<Nibbles>)
    ensures lack == LackedBy(h, theirs, keys, |keys|)
  {
    lack := [];
    for i := 0 to |keys|
      invariant lack == LackedBy(h, theirs, keys, i)
    {
      if !(keys[i] in theirs && theirs[keys[i]] >= HeldLength(h, keys[i])) {
        lack := lack + [keys[i]];
      }
    }
  }
}
