/**
 How a context's log becomes its index (src/context-base.js #applyView and
 #applyNodes, src/index-layout/context.js): events are written in chunks, the
 edge counters held back until each chunk's end, and the app's rules read the
 index in between.
 */
module ContextApply {
  import opened Options
  import Roles = ContextRoles

  type Id = string

  datatype Edge = Edge(source: Id, target: Id, kind: string, author: string, createdAt: int, value: Option<real>,
          data: Option<string>, deleted: bool)

  // Keys of the index, one constructor's arguments for each part of a key; `layout` keeps the two layouts apart.
  datatype EdgeKey = EdgeKey(layout: nat, source: Id, kind: string, createdAt: int, target: Id)
  datatype ActiveKey = ActiveKey(layout: nat, source: Id, kind: string, target: Id)
  datatype InKey = InKey(layout: nat, target: Id, kind: string, createdAt: int, source: Id)
  datatype CountKey = CountKey(layout: nat, incoming: bool, entity: Id, kind: string)
  datatype TagKey = TagKey(layout: nat, tag: string, createdAt: int, entity: Id, author: string)
  datatype TagRef = TagRef(layout: nat, tag: string, entity: Id, author: string)

  datatype Message = Message(text: string, author: string)

  /** The view as written: roles and invites, and the index. */
  datatype View = View(
    roles: Roles.State, edges: map<EdgeKey, Edge>, active: map<ActiveKey, EdgeKey>, incoming: map<InKey, EdgeKey>,
    counts: map<CountKey, nat>, tags: set<TagKey>, tagRefs: map<TagRef, TagKey>,
      messages: map<(int, string), Message>)

  datatype Event =
    | Malformed
    | Membership(e: Roles.Event)
    | Relate(source: Id, target: Id, kind: string, author: string, at: int, value: Option<real>,
      data: Option<string>, dataFits: bool, signed: bool)
    | Unrelate(source: Id, target: Id, kind: string, createdAt: int, author: string, signed: bool)
    | AddTag(entity: Id, tag: string, author: string, at: int, signed: bool)
    | RemoveTag(entity: Id, tag: string, author: string, signed: bool)
    | Say(text: string, author: string, at: int)

  datatype Node = Node(event: Event, optimistic: bool)

  // --- the app's rules ---

  datatype Query =
    | HasEdge(source: Id, kind: string, target: Id)
    | Edges(entity: Id, incoming: bool, only: Option<string>)
    | Count(incoming: bool, entity: Id, kind: string)
    | HasTag(entity: Id, tag: string)

  datatype Reply = Held(yes: bool) | Found(edges: set<Edge>) | Counted(n: nat)

  datatype Move = Accept | Reject | Ask(query: Query)

  /**
   An app's rules: what they do next with an event, given the answers so far.
   One that asks more than `most` questions counts as one that throws.
   */
  datatype Rules = Rules(next: (Event, seq<Reply>) -> Move, most: nat)

  datatype Env = Env(roles: Roles.Env, verifySignatures: bool, authorOf: Id -> string, rules: Option<Rules>)

  // --- the index ---

  function CountIn(view: View, key: CountKey): nat {
    if key in view.counts then view.counts[key] else 0
  }

  function ActiveEdge(view: View, key: ActiveKey): Option<Edge> {
    if key in view.active && view.active[key] in view.edges then Some(view.edges[view.active[key]]) else None
  }

  predicate HasActive(view: View, key: ActiveKey) {
    ActiveEdge(view, key).Some? && !ActiveEdge(view, key).value.deleted
  }

  function EdgesOf(view: View, layout: nat, entity: Id, incoming: bool, kind: Option<string>): set<Edge> {
    if incoming then
      set k | k in view.incoming && k.layout == layout && k.target == entity && (kind.Some? ==> k.kind == kind.value)
        && view.incoming[k] in view.edges && !view.edges[view.incoming[k]].deleted :: view.edges[view.incoming[k]]
    else
      set k | k in view.edges && k.layout == layout && k.source == entity && (kind.Some? ==> k.kind == kind.value)
        && !view.edges[k].deleted :: view.edges[k]
  }

  function WithEdge(view: View, layout: nat, e: Event): View
    requires e.Relate?
  {
    var key := EdgeKey(layout, e.source, e.kind, e.at, e.target);
    view.(
      edges := view.edges[key := Edge(e.source, e.target, e.kind, e.author, e.at, e.value, e.data, false)],
      active := view.active[ActiveKey(layout, e.source, e.kind, e.target) := key],
      incoming := view.incoming[InKey(layout, e.target, e.kind, e.at, e.source) := key])
  }

  function WithoutEdge(view: View, layout: nat, e: Event): View
    requires e.Unrelate?
  {
    var key := EdgeKey(layout, e.source, e.kind, e.createdAt, e.target);
    view.(
      edges := if key in view.edges then view.edges[key := view.edges[key].(deleted := true)] else view.edges,
      active := view.active - {ActiveKey(layout, e.source, e.kind, e.target)},
      incoming := view.incoming - {InKey(layout, e.target, e.kind, e.createdAt, e.source)})
  }

  function WithTag(view: View, layout: nat, e: Event): View
    requires e.AddTag?
  {
    var key := TagKey(layout, e.tag, e.at, e.entity, e.author);
    view.(tags := view.tags + {key}, tagRefs := view.tagRefs[TagRef(layout, e.tag, e.entity, e.author) := key])
  }

  function WithoutTag(view: View, layout: nat, e: Event): View
    requires e.RemoveTag?
  {
    var ref := TagRef(layout, e.tag, e.entity, e.author);
    view.(tags := if ref in view.tagRefs then view.tags - {view.tagRefs[ref]} else view.tags,
      tagRefs := view.tagRefs - {ref})
  }

  function WithMessage(view: View, e: Event): View
    requires e.Say?
  {
    var key := (e.at, if |e.author| > 8 then e.author[..8] else e.author);
    view.(messages := view.messages[key := Message(e.text, e.author)])
  }

  // --- one event at a time, counters written at once ---

  function Bumped(n: nat, delta: int): nat {
    if n + delta < 0 then 0 else n + delta
  }

  function Bump(view: View, key: CountKey, delta: int): View {
    view.(counts := view.counts[key := Bumped(CountIn(view, key), delta)])
  }

  function BumpBoth(view: View, layout: nat, source: Id, kind: string, target: Id, delta: int): View {
    Bump(Bump(view, CountKey(layout, true, target, kind), delta), CountKey(layout, false, source, kind), delta)
  }

  function Answer(view: View, layout: nat, q: Query): Reply {
    match q
    case HasEdge(source, kind, target) => Held(HasActive(view, ActiveKey(layout, source, kind, target)))
    case Edges(entity, incoming, only) => Found(EdgesOf(view, layout, entity, incoming, only))
    case Count(incoming, entity, kind) => Counted(CountIn(view, CountKey(layout, incoming, entity, kind)))
    case HasTag(entity, tag) => Held(exists ref | ref in view.tagRefs ::
      ref.layout == layout && ref.tag == tag &&
      ref.entity == entity)
  }

  /** What the rules say in the end, `left` questions left. */
  predicate Judged(rules: Rules, view: View, layout: nat, e: Event, replies: seq<Reply>, left: nat)
    decreases left
  {
    match rules.next(e, replies)
    case Accept => true
    case Reject => false
    case Ask(query) => left > 0 && Judged(rules, view, layout, e, replies + [Answer(view, layout, query)], left - 1)
  }

  predicate Passes(env: Env, view: View, layout: nat, e: Event) {
    env.rules.Some? ==> Judged(env.rules.value, view, layout, e, [], env.rules.value.most)
  }

  /** A question the rules asked about an event, and the answer they got. */
  datatype Asking = Asking(event: Event, query: Query, reply: Reply)

  /** What the rules ask from here on, `left` questions left. */
  function Questions(rules: Rules, view: View, layout: nat, e: Event, replies: seq<Reply>, left: nat): seq<Asking>
    decreases left
  {
    var move := rules.next(e, replies);
    if !move.Ask? || left == 0 then []
    else
      var reply := Answer(view, layout, move.query);
      [Asking(e, move.query, reply)] + Questions(rules, view, layout, e, replies + [reply], left - 1)
  }

  /** One move of the rules, after those in `asked`. */
  lemma OneMove(rules: Rules, view: View, layout: nat, e: Event, replies: seq<Reply>, left: nat, asked: seq<Asking>)
    ensures
      var rest := Questions(rules, view, layout, e, replies, left);
      match rules.next(e, replies)
      case Accept => Judged(rules, view, layout, e, replies, left) && asked + rest == asked
      case Reject => !Judged(rules, view, layout, e, replies, left) && asked + rest == asked
      case Ask(query) =>
        if left == 0 then !Judged(rules, view, layout, e, replies, left) && asked + rest == asked
        else
          var reply := Answer(view, layout, query);
          && Judged(rules, view, layout, e, replies, left) ==
            Judged(rules, view, layout, e, replies + [reply], left - 1)
          && asked + rest ==
             (asked + [Asking(e, query, reply)]) + Questions(rules, view, layout, e, replies + [reply], left - 1)
  {
    hide Answer;
  }

  function AllQuestions(env: Env, view: View, layout: nat, e: Event): seq<Asking> {
    if env.rules.None? then [] else Questions(env.rules.value, view, layout, e, [], env.rules.value.most)
  }

  /** Whether what comes before the rules lets the event through to them. */
  predicate ReachesRules(env: Env, e: Event) {
    match e
    case Relate(source, _, _, author, _, _, _, dataFits, signed) =>
      (env.verifySignatures ==> signed) && env.authorOf(source) == author && dataFits
    case Unrelate(_, _, _, _, _, signed) => env.verifySignatures ==> signed
    case AddTag(_, _, _, _, signed) => signed
    case RemoveTag(_, _, _, signed) => signed
    case Say(_, _, _) => true
    case _ => false
  }

  function IndexedAsks(env: Env, view: View, layout: nat, e: Event): seq<Asking> {
    if ReachesRules(env, e) then AllQuestions(env, view, layout, e) else []
  }

  predicate Relates(env: Env, view: View, layout: nat, e: Event)
    requires e.Relate?
  {
    && (env.verifySignatures ==> e.signed) && env.authorOf(e.source) == e.author && e.dataFits
    && Passes(env, view, layout, e) && !HasActive(view, ActiveKey(layout, e.source, e.kind, e.target))
  }

  predicate Unrelates(env: Env, view: View, layout: nat, e: Event)
    requires e.Unrelate?
  {
    (env.verifySignatures ==> e.signed) && Passes(env, view, layout, e)
  }

  /** An event that is no membership change, applied with this layout. */
  function Indexed(env: Env, view: View, layout: nat, e: Event): View
    requires !e.Membership?
  {
    match e
    case Malformed => view
    case Relate(source, target, kind, _, _, _, _, _, _) =>
      if Relates(env, view, layout, e) then BumpBoth(WithEdge(view, layout, e), layout, source, kind, target, 1)
        else view
    case Unrelate(source, target, kind, _, _, _) =>
      if Unrelates(env, view, layout, e) then
        BumpBoth(WithoutEdge(view, layout, e), layout, source, kind, target, -1) else view
    case AddTag(_, _, _, _, signed) => if signed && Passes(env, view, layout, e) then WithTag(view, layout, e) else view
    case RemoveTag(_, _, _, signed) => if signed && Passes(env, view, layout, e) then WithoutTag(view, layout, e)
      else view
    case Say(_, _, _) => if Passes(env, view, layout, e) then WithMessage(view, e) else view
  }

  /** Where apply stands: the view, and whether it has returned before the batch's end. */
  datatype Progress = Progress(view: View, stopped: bool)

  predicate Opens(e: Event) {
    e.Membership? && (e.e.Init? || e.e.Upgrade?)
  }

  ghost predicate Sound(view: View) {
    view.roles.invites != map[] ==> view.roles.table.Some?
  }

  function Interrupted(view: View): View {
    view.(roles := view.roles.(host := view.roles.host.(interrupted := true)))
  }

  function Member(env: Env, view: View, e: Roles.Event, optimistic: bool): View
    requires Sound(view)
  {
    view.(roles := Roles.Step(env.roles, view.roles, e, optimistic))
  }

  /** One event, applied alone: the record read again, the counters written at once. */
  function Alone(env: Env, p: Progress, node: Node): Progress
    requires Sound(p.view)
  {
    var e := node.event;
    var record := Roles.RecordOf(p.view.roles);
    if p.stopped || e.Malformed? then p
    else if Opens(e) then p.(view := Member(env, p.view, e.e, node.optimistic))
    else if Roles.Refused(env.roles, record) then Progress(Interrupted(p.view), true)
    else if e.Membership? then p.(view := Member(env, p.view, e.e, node.optimistic))
    else if node.optimistic then p
    else p.(view := Indexed(env, p.view, record.layout, e))
  }

  /** What the rules ask about one event applied alone. */
  function AloneAsks(env: Env, p: Progress, node: Node): seq<Asking> {
    var record := Roles.RecordOf(p.view.roles);
    if p.stopped || Opens(node.event) || Roles.Refused(env.roles, record) || node.optimistic then []
    else IndexedAsks(env, p.view, record.layout, node.event)
  }

  lemma MemberKeepsInv(env: Env, view: View, e: Roles.Event, optimistic: bool)
    requires Roles.Inv(view.roles)
    ensures Sound(view)
    ensures Roles.Inv(Member(env, view, e, optimistic).roles) && Roles.Inv(Interrupted(view).roles)
  {
    hide Roles.Step, Roles.Inv;
    Roles.NeedsTable(view.roles);
    Roles.StepKeepsInv(env.roles, view.roles, e, optimistic);
    Roles.HostKeepsInv(view.roles);
  }

  lemma AloneKeepsInv(env: Env, p: Progress, node: Node)
    requires Roles.Inv(p.view.roles)
    ensures Sound(p.view) && Roles.Inv(Alone(env, p, node).view.roles)
  {
    hide Member, Interrupted, Indexed, Roles.Refused, Roles.Inv;
    MemberKeepsInv(env, p.view, if node.event.Membership? then node.event.e else Roles.AddWriter(""), node.optimistic);
    if !node.event.Membership? {
      IndexedKeepsRoles(env, p.view, Roles.RecordOf(p.view.roles).layout, node.event);
    }
  }

  lemma IndexedKeepsRoles(env: Env, view: View, layout: nat, e: Event)
    requires !e.Membership?
    ensures Indexed(env, view, layout, e).roles == view.roles
  {
    hide Passes, HasActive;
  }

  /** The whole batch, one event at a time. */
  function AllAlone(env: Env, p: Progress, nodes: seq<Node>): (r: Progress)
    requires Roles.Inv(p.view.roles)
    ensures Roles.Inv(r.view.roles)
    decreases nodes
  {
    if nodes == [] then p
    else
      AloneKeepsInv(env, p, nodes[0]);
      AllAlone(env, Alone(env, p, nodes[0]), nodes[1..])
  }

  /** And about the whole batch. */
  function AllAloneAsks(env: Env, p: Progress, nodes: seq<Node>): seq<Asking>
    requires Roles.Inv(p.view.roles)
    decreases nodes
  {
    if nodes == [] then []
    else
      AloneKeepsInv(env, p, nodes[0]);
      AloneAsks(env, p, nodes[0]) + AllAloneAsks(env, Alone(env, p, nodes[0]), nodes[1..])
  }

  // --- counters held back ---

  /** What the index is once the counters held back are written. */
  function Merged(view: View, counts: map<CountKey, nat>): View {
    view.(counts := view.counts + counts)
  }

  /** The counters held back change nothing else: what is written beside them commutes with writing them. */
  lemma MergedCommutes(view: View, counts: map<CountKey, nat>, layout: nat, e: Event)
    ensures e.Relate? ==> WithEdge(Merged(view, counts), layout, e) == Merged(WithEdge(view, layout, e), counts)
    ensures e.Unrelate? ==> WithoutEdge(Merged(view, counts), layout, e) == Merged(WithoutEdge(view, layout, e), counts)
    ensures e.AddTag? ==> WithTag(Merged(view, counts), layout, e) == Merged(WithTag(view, layout, e), counts)
    ensures e.RemoveTag? ==> WithoutTag(Merged(view, counts), layout, e) == Merged(WithoutTag(view, layout, e), counts)
    ensures e.Say? ==> WithMessage(Merged(view, counts), e) == Merged(WithMessage(view, e), counts)
  {
  }

  lemma BumpHeldBack(view: View, counts: map<CountKey, nat>, key: CountKey, delta: int)
    ensures CountIn(Merged(view, counts), key) == if key in counts then counts[key] else CountIn(view, key)
    ensures
      var n := if key in counts then counts[key] else CountIn(view, key);
      Bump(Merged(view, counts), key, delta) == Merged(view, counts[key := Bumped(n, delta)])
  {
    var n := if key in counts then counts[key] else CountIn(view, key);
    assert view.counts + counts[key := Bumped(n, delta)] == (view.counts + counts)[key := Bumped(n, delta)];
  }

  class Applying {
    const env: Env
    var stored: View
    var view: View
    var counts: map<CountKey, nat>
    var record: Option<Roles.Record>
    var layout: nat

    /** The index as a reader inside the chunk sees it. */
    ghost function Seen(): View
      reads this
    {
      Merged(view, counts)
    }

    constructor (env: Env, stored: View)
      ensures this.env == env && this.stored == stored
    {
      this.env, this.stored, view, counts, record, layout := env, stored, stored, map[], None, 1;
    }

    // A counter as held back, else as written.
    method Counter(key: CountKey) returns (n: nat)
      ensures n == CountIn(Seen(), key)
    {
      n := if key in counts then counts[key] else CountIn(view, key);
    }

    method BumpCount(key: CountKey, delta: int)
      modifies this`counts
      ensures Seen() == Bump(old(Seen()), key, delta)
    {
      BumpHeldBack(view, counts, key, delta);
      var n := if key in counts then counts[key] else CountIn(view, key);
      counts := counts[key := if n + delta < 0 then 0 else n + delta];
    }

    // What the read-only reader tells the rules.
    method AnswerNow(q: Query) returns (reply: Reply)
      ensures reply == Answer(Seen(), layout, q)
    {
      match q {
        case HasEdge(source, kind, target) => reply := Held(HasActive(view, ActiveKey(layout, source, kind, target)));
        case Edges(entity, incoming, only) => reply := Found(EdgesOf(view, layout, entity, incoming, only));
        case Count(incoming, entity, kind) =>
          var n := Counter(CountKey(layout, incoming, entity, kind));
          reply := Counted(n);
        case HasTag(entity, tag) =>
          reply := Held(exists ref | ref in view.tagRefs ::
            ref.layout == layout && ref.tag == tag && ref.entity == entity);
      }
    }

    method PassesRules(e: Event) returns (ok: bool, ghost asked: seq<Asking>)
      ensures ok == Passes(env, Seen(), layout, e)
      ensures asked == AllQuestions(env, Seen(), layout, e)
    {
      hide Answer, Merged, Judged, Questions;
      asked := [];
      if env.rules.None? {
        return true, [];
      }
      var rules := env.rules.value;
      var replies, left := [], rules.most;
      while true
        invariant Judged(rules, Seen(), layout, e, replies, left) == Judged(rules, Seen(), layout, e, [], rules.most)
        invariant asked + Questions(rules, Seen(), layout, e, replies, left) ==
            Questions(rules, Seen(), layout, e, [], rules.most)
        decreases left
      {
        OneMove(rules, Seen(), layout, e, replies, left, asked);
        match rules.next(e, replies) {
          case Accept => return true, asked;
          case Reject => return false, asked;
          case Ask(query) =>
            if left == 0 {
              return false, asked;
            }
            var reply := AnswerNow(query);
            replies, left, asked := replies + [reply], left - 1, asked + [Asking(e, query, reply)];
        }
      }
    }

    method ApplyRelation(e: Event) returns (ghost asked: seq<Asking>)
      requires e.Relate?
      modifies this`view, this`counts
      ensures Seen() == Indexed(env, old(Seen()), layout, e)
      ensures asked == IndexedAsks(env, old(Seen()), layout, e)
    {
      hide Passes, Bump, WithEdge, Merged, AllQuestions;
      asked := [];
      if env.verifySignatures && !e.signed {
        return;
      }
      if env.authorOf(e.source) != e.author || !e.dataFits {
        return;
      }
      var ok;
      ok, asked := PassesRules(e);
      ActiveInSeen(view, counts, ActiveKey(layout, e.source, e.kind, e.target));
      if !ok || HasActive(view, ActiveKey(layout, e.source, e.kind, e.target)) {
        return;
      }
      MergedCommutes(view, counts, layout, e);
      view := WithEdge(view, layout, e);
      BumpCount(CountKey(layout, true, e.target, e.kind), 1);
      BumpCount(CountKey(layout, false, e.source, e.kind), 1);
    }

    method ApplyRelationDelete(e: Event) returns (ghost asked: seq<Asking>)
      requires e.Unrelate?
      modifies this`view, this`counts
      ensures Seen() == Indexed(env, old(Seen()), layout, e)
      ensures asked == IndexedAsks(env, old(Seen()), layout, e)
    {
      hide Passes, Bump, WithoutEdge, Merged, AllQuestions;
      asked := [];
      if env.verifySignatures && !e.signed {
        return;
      }
      var ok;
      ok, asked := PassesRules(e);
      if !ok {
        return;
      }
      MergedCommutes(view, counts, layout, e);
      view := WithoutEdge(view, layout, e);
      BumpCount(CountKey(layout, true, e.target, e.kind), -1);
      BumpCount(CountKey(layout, false, e.source, e.kind), -1);
    }

    method ApplyTag(e: Event) returns (ghost asked: seq<Asking>)
      requires e.AddTag?
      modifies this`view
      ensures Seen() == Indexed(env, old(Seen()), layout, e)
      ensures asked == IndexedAsks(env, old(Seen()), layout, e)
    {
      hide Passes, WithTag, Merged, AllQuestions;
      asked := [];
      if !e.signed {
        return;
      }
      var ok;
      ok, asked := PassesRules(e);
      if ok {
        MergedCommutes(view, counts, layout, e);
        view := WithTag(view, layout, e);
      }
    }

    method ApplyTagDelete(e: Event) returns (ghost asked: seq<Asking>)
      requires e.RemoveTag?
      modifies this`view
      ensures Seen() == Indexed(env, old(Seen()), layout, e)
      ensures asked == IndexedAsks(env, old(Seen()), layout, e)
    {
      hide Passes, WithoutTag, Merged, AllQuestions;
      asked := [];
      if !e.signed {
        return;
      }
      var ok;
      ok, asked := PassesRules(e);
      if ok {
        MergedCommutes(view, counts, layout, e);
        view := WithoutTag(view, layout, e);
      }
    }

    method ApplyMessage(e: Event) returns (ghost asked: seq<Asking>)
      requires e.Say?
      modifies this`view
      ensures Seen() == Indexed(env, old(Seen()), layout, e)
      ensures asked == IndexedAsks(env, old(Seen()), layout, e)
    {
      hide Passes, WithMessage, Merged, AllQuestions;
      var ok;
      ok, asked := PassesRules(e);
      if ok {
        MergedCommutes(view, counts, layout, e);
        view := WithMessage(view, e);
      }
    }

    // The counters held back are written, then the chunk.
    method Flush()
      modifies this`stored, this`view, this`counts
      ensures Seen() == old(Seen()) && view == stored == Seen() && counts == map[]
    {
      hide Part;
      var todo := counts.Keys;
      ghost var was := view.counts;
      NonePut(was, counts);
      assert counts.Keys - counts.Keys == {};
      while todo != {}
        invariant todo <= counts.Keys && counts == old(counts)
        invariant view == old(view).(counts := Part(was, counts, counts.Keys - todo))
      {
        var key :| key in todo;
        OnePut(was, counts, counts.Keys - todo, key);
        assert counts.Keys - (todo - {key}) == (counts.Keys - todo) + {key};
        view := view.(counts := view.counts[key := counts[key]]);
        todo := todo - {key};
      }
      assert counts.Keys - {} == counts.Keys;
      counts := map[];
      assert view.counts + map[] == view.counts;
      stored := view;
    }

    method ApplyIndexed(e: Event) returns (ghost asked: seq<Asking>)
      requires !e.Membership?
      modifies this`view, this`counts
      ensures Seen() == Indexed(env, old(Seen()), layout, e)
      ensures view.roles == old(view).roles
      ensures asked == IndexedAsks(env, old(Seen()), layout, e)
    {
      hide Indexed, AllQuestions;
      IndexedKeepsRoles(env, Seen(), layout, e);
      asked := [];
      match e {
        case Malformed => MalformedChangesNothing(env, Seen(), layout);
        case Relate(_, _, _, _, _, _, _, _, _) => asked := ApplyRelation(e);
        case Unrelate(_, _, _, _, _, _) => asked := ApplyRelationDelete(e);
        case AddTag(_, _, _, _, _) => asked := ApplyTag(e);
        case RemoveTag(_, _, _, _) => asked := ApplyTagDelete(e);
        case Say(_, _, _) => asked := ApplyMessage(e);
      }
    }

    method ApplyMembership(e: Roles.Event, optimistic: bool)
      requires Roles.Inv(view.roles)
      modifies this`view
      ensures Sound(old(Seen())) && Seen() == Member(env, old(Seen()), e, optimistic)
      ensures Roles.Inv(view.roles) && (!e.Init? && !e.Upgrade? ==> view.roles.record == old(view).roles.record)
    {
      hide Roles.Step, Roles.Inv;
      MemberKeepsInv(env, view, e, optimistic);
      if !e.Init? && !e.Upgrade? {
        Roles.RecordStays(env.roles, view.roles, e, optimistic);
      }
      view := Member(env, view, e, optimistic);
    }

    // One event; stop: apply returns here.
    method ApplyNode(node: Node) returns (stop: bool, ghost asked: seq<Asking>)
      requires Roles.Inv(view.roles) && (record.Some? ==> RecordKnown(view, record.value, layout))
      modifies this`view, this`counts, this`record, this`layout
      ensures Sound(old(Seen())) && Progress(Seen(), stop) == Alone(env, Progress(old(Seen()), false), node)
      ensures Roles.Inv(view.roles) && (record.Some? ==> RecordKnown(view, record.value, layout))
      ensures asked == AloneAsks(env, Progress(old(Seen()), false), node)
    {
      hide Roles.Step, Roles.Inv, Roles.Refused, Roles.RecordOf, Indexed, Member, Merged, Interrupted, AllQuestions;
      asked := [];
      var e := node.event;
      SeenParts(env, view, counts);
      MemberKeepsInv(env, view, Roles.AddWriter(""), false);
      if e.Malformed? {
        return false, [];
      }
      if Opens(e) {
        ApplyMembership(e.e, node.optimistic);
        record := None;
        return false, [];
      }
      if record.None? {
        record := Some(Roles.RecordOf(view.roles));
        layout := record.value.layout;
      }
      if Roles.Refused(env.roles, record.value) {
        view := Interrupted(view);
        return true, [];
      }
      if e.Membership? {
        ghost var was := view;
        ApplyMembership(e.e, node.optimistic);
        SameRecord(was, view);
        return false, [];
      }
      if node.optimistic {
        return false, [];
      }
      asked := ApplyIndexed(e);
      return false, asked;
    }

    /**
     Applies a batch, flushing every `chunk` events. Whatever `chunk` is, what
     is stored then is what the events give one at a time, each counter written
     at once and the rules reading the view so written; and the rules ask the same
     questions, in the same order, and get the same answers.
     */
    method ApplyView(nodes: seq<Node>, chunk: nat) returns (ghost asked: seq<Asking>)
      requires Roles.Inv(stored.roles)
      modifies this
      ensures stored == AllAlone(env, Progress(old(stored), false), nodes).view
      ensures view == stored && counts == map[]
      ensures asked == AllAloneAsks(env, Progress(old(stored), false), nodes)
    {
      hide Alone, AllAlone, AloneAsks, AllAloneAsks, Roles.Inv;
      asked := [];
      view, counts, record := stored, map[], None;
      var pending := 0;
      assert Seen() == stored by {
        assert view.counts + map[] == view.counts;
      }
      ghost var start := Progress(Seen(), false);
      assert nodes[0..] == nodes;
      for i := 0 to |nodes|
        invariant Roles.Inv(Seen().roles) && (record.Some? ==> RecordKnown(view, record.value, layout))
        invariant AllAlone(env, start, nodes) == AllAlone(env, Progress(Seen(), false), nodes[i..])
        invariant AllAloneAsks(env, start, nodes) == asked + AllAloneAsks(env, Progress(Seen(), false), nodes[i..])
      {
        pending := pending + 1;
        if pending >= chunk {
          Flush();
          pending := 0;
        }
        ghost var before := Progress(Seen(), false);
        OneMore(env, before, nodes[i..]);
        assert nodes[i..][1..] == nodes[i + 1..];
        ghost var rest := AllAloneAsks(env, Alone(env, before, nodes[i]), nodes[i + 1..]);
        ghost var before' := asked;
        var stop;
        ghost var more;
        stop, more := ApplyNode(nodes[i]);
        asked := asked + more;
        assert before' + (more + rest) == asked + rest;
        if stop {
          StoppedStays(env, Progress(Seen(), true), nodes[i + 1..]);
          assert asked + [] == asked;
          Flush();
          return;
        }
      }
      NoMore(env, Progress(Seen(), false), nodes[|nodes|..]);
      assert asked + [] == asked;
      Flush();
    }
  }

  /** `was` with the counters in `done` written. */
  function Part(was: map<CountKey, nat>, counts: map<CountKey, nat>, done: set<CountKey>): map<CountKey, nat> {
    was + map k | k in counts && k in done :: counts[k]
  }

  lemma NonePut(was: map<CountKey, nat>, counts: map<CountKey, nat>)
    ensures Part(was, counts, {}) == was
    ensures Part(was, counts, counts.Keys) == was + counts
  {
    assert (map k | k in counts && k in counts.Keys :: counts[k]) == counts;
  }

  lemma OnePut(was: map<CountKey, nat>, counts: map<CountKey, nat>, done: set<CountKey>, key: CountKey)
    requires key in counts
    ensures Part(was, counts, done)[key := counts[key]] == Part(was, counts, done + {key})
  {
  }

  /** The record read before is still the view's. */
  ghost predicate RecordKnown(view: View, record: Roles.Record, layout: nat) {
    record == Roles.RecordOf(view.roles) && layout == record.layout
  }

  lemma SameRecord(a: View, b: View)
    requires a.roles.record == b.roles.record
    ensures Roles.RecordOf(a.roles) == Roles.RecordOf(b.roles)
  {
  }

  lemma MalformedChangesNothing(env: Env, view: View, layout: nat)
    ensures Indexed(env, view, layout, Malformed) == view
  {
  }

  lemma SeenParts(env: Env, view: View, counts: map<CountKey, nat>)
    ensures Merged(view, counts).roles == view.roles
    ensures Interrupted(Merged(view, counts)) == Merged(Interrupted(view), counts)
    ensures Roles.RecordOf(Interrupted(view).roles) == Roles.RecordOf(view.roles)
  {
  }

  lemma OneMore(env: Env, p: Progress, nodes: seq<Node>)
    requires Roles.Inv(p.view.roles) && nodes != []
    ensures Sound(p.view) && Roles.Inv(Alone(env, p, nodes[0]).view.roles)
    ensures AllAlone(env, p, nodes) == AllAlone(env, Alone(env, p, nodes[0]), nodes[1..])
    ensures AllAloneAsks(env, p, nodes) == AloneAsks(env, p, nodes[0]) +
        AllAloneAsks(env, Alone(env, p, nodes[0]), nodes[1..])
  {
    hide Alone, AloneAsks, Roles.Inv, Sound;
    AloneKeepsInv(env, p, nodes[0]);
  }

  lemma NoMore(env: Env, p: Progress, nodes: seq<Node>)
    requires Roles.Inv(p.view.roles) && nodes == []
    ensures AllAlone(env, p, nodes) == p && AllAloneAsks(env, p, nodes) == []
  {
    hide Alone, Roles.Inv;
  }

  lemma {:induction false} StoppedStays(env: Env, p: Progress, nodes: seq<Node>)
    requires Roles.Inv(p.view.roles) && p.stopped
    ensures AllAlone(env, p, nodes) == p && AllAloneAsks(env, p, nodes) == []
  {
    hide Roles.Inv, Roles.Step, Roles.Refused, Indexed, Member;
    if nodes != [] {
      OneMore(env, p, nodes);
      StoppedStays(env, p, nodes[1..]);
    }
  }

  lemma ActiveInSeen(view: View, counts: map<CountKey, nat>, key: ActiveKey)
    ensures HasActive(Merged(view, counts), key) == HasActive(view, key)
  {
  }

  /** Splitting a batch changes nothing either, as long as apply is not stopped. */
  lemma {:induction false} BatchesCompose(env: Env, p: Progress, first: seq<Node>, then_: seq<Node>)
    requires Roles.Inv(p.view.roles)
    ensures AllAlone(env, p, first + then_) == AllAlone(env, AllAlone(env, p, first), then_)
    ensures AllAloneAsks(env, p, first + then_) ==
        AllAloneAsks(env, p, first) + AllAloneAsks(env, AllAlone(env, p, first), then_)
    decreases first
  {
    hide Roles.Inv, Alone, AloneAsks;
    if first == [] {
      assert first + then_ == then_;
      assert [] + AllAloneAsks(env, p, then_) == AllAloneAsks(env, p, then_);
    } else {
      OneMore(env, p, first);
      OneMore(env, p, first + then_);
      assert (first + then_)[1..] == first[1..] + then_;
      BatchesCompose(env, Alone(env, p, first[0]), first[1..], then_);
    }
  }

  // --- what the counters count ---

  /** The edges a reader is given into an entity, or out of it, of one kind. */
  ghost function Live(view: View, key: CountKey): set<Edge> {
    EdgesOf(view, key.layout, key.entity, key.incoming, Some(key.kind))
  }

  ghost predicate CountersRight(view: View) {
    forall key :: CountIn(view, key) == |Live(view, key)|
  }

  function KeyOf(layout: nat, x: Edge): EdgeKey {
    EdgeKey(layout, x.source, x.kind, x.createdAt, x.target)
  }

  function ActiveOf(k: EdgeKey): ActiveKey {
    ActiveKey(k.layout, k.source, k.kind, k.target)
  }

  function InOf(k: EdgeKey): InKey {
    InKey(k.layout, k.target, k.kind, k.createdAt, k.source)
  }

  /** Each edge is under its own key, and each one not deleted has its incoming entry. */
  ghost predicate Filed(view: View) {
    && (forall k :: k in view.edges ==> k == KeyOf(k.layout, view.edges[k]))
    && (forall i :: i in view.incoming ==>
      view.incoming[i] ==
      EdgeKey(i.layout, i.source, i.kind, i.createdAt, i.target))
    && forall k :: k in view.edges && !view.edges[k].deleted ==> InOf(k) in view.incoming
  }

  /** The active entries are the edges not deleted, one for each source, kind and target. */
  ghost predicate ActiveRight(view: View) {
    && (forall a :: a in view.active ==>
         ActiveOf(view.active[a]) == a && view.active[a] in view.edges && !view.edges[view.active[a]].deleted)
    && forall k :: k in view.edges && !view.edges[k].deleted ==>
         ActiveOf(k) in view.active && view.active[ActiveOf(k)] == k
  }

  /** Every counter is the number of edges a reader is given, and the index's three parts are in step. */
  ghost predicate Exact(view: View) {
    Filed(view) && ActiveRight(view) && CountersRight(view)
  }

  /** One of the two counters an edge counts for. */
  predicate Ends(key: CountKey, layout: nat, source: Id, kind: string, target: Id) {
    key == CountKey(layout, true, target, kind) || key == CountKey(layout, false, source, kind)
  }

  lemma CountAfter(view: View, layout: nat, source: Id, kind: string, target: Id, delta: int, key: CountKey)
    ensures
      CountIn(BumpBoth(view, layout, source, kind, target, delta), key) ==
      if Ends(key, layout, source, kind, target) then Bumped(CountIn(view, key), delta) else CountIn(view, key)
  {
  }

  lemma BumpsOnlyCounts(view: View, layout: nat, source: Id, kind: string, target: Id, delta: int)
    ensures BumpBoth(view, layout, source, kind, target, delta) ==
            view.(counts := BumpBoth(view, layout, source, kind, target, delta).counts)
  {
  }

  lemma InLive(view: View, key: CountKey, x: Edge)
    requires Filed(view)
    ensures x in Live(view, key) <==>
      && KeyOf(key.layout, x) in view.edges && view.edges[KeyOf(key.layout, x)] == x
      && !x.deleted && Ends(key, key.layout, x.source, x.kind, x.target)
  {
    var k := KeyOf(key.layout, x);
    if k in view.edges && view.edges[k] == x && !x.deleted {
      assert InOf(k) in view.incoming && view.incoming[InOf(k)] == k;
    }
  }

  lemma SameIndex(a: View, b: View)
    requires a.active == b.active && a.edges == b.edges && a.incoming == b.incoming
    ensures Filed(a) == Filed(b) && ActiveRight(a) == ActiveRight(b)
    ensures forall key :: Live(a, key) == Live(b, key)
  {
  }

  // --- an edge added ---

  function NewEdge(e: Event): Edge
    requires e.Relate?
  {
    Edge(e.source, e.target, e.kind, e.author, e.at, e.value, e.data, false)
  }

  lemma RelatedFiled(view: View, layout: nat, e: Event)
    requires e.Relate? && Filed(view)
    ensures Filed(WithEdge(view, layout, e))
  {
  }

  lemma RelatedActive(view: View, layout: nat, e: Event)
    requires e.Relate? && ActiveRight(view)
    requires !HasActive(view, ActiveKey(layout, e.source, e.kind, e.target))
    ensures ActiveRight(WithEdge(view, layout, e))
  {
  }

  lemma NotLiveBefore(view: View, layout: nat, e: Event)
    requires e.Relate? && ActiveRight(view) && !HasActive(view, ActiveKey(layout, e.source, e.kind, e.target))
    ensures
      var k := KeyOf(layout, NewEdge(e));
      k in view.edges ==> view.edges[k].deleted
  {
    assert ActiveOf(KeyOf(layout, NewEdge(e))) == ActiveKey(layout, e.source, e.kind, e.target);
  }

  lemma RelatedLive(view: View, layout: nat, e: Event, key: CountKey)
    requires e.Relate? && Filed(view) && ActiveRight(view)
    requires !HasActive(view, ActiveKey(layout, e.source, e.kind, e.target))
    ensures NewEdge(e) !in Live(view, key) || key.layout != layout
    ensures
      Live(WithEdge(view, layout, e), key) ==
      Live(view, key) + if Ends(key, layout, e.source, e.kind, e.target) then {NewEdge(e)} else {}
  {
    hide Live, Filed, ActiveRight, HasActive;
    var next := WithEdge(view, layout, e);
    RelatedFiled(view, layout, e);
    NotLiveBefore(view, layout, e);
    InLive(view, key, NewEdge(e));
    forall x
      ensures x in Live(next, key) <==>
          x in Live(view, key) ||
          (x == NewEdge(e) && Ends(key, layout, e.source, e.kind, e.target))
    {
      InLive(view, key, x);
      InLive(next, key, x);
    }
  }

  lemma RelatingKeepsExact(view: View, layout: nat, e: Event)
    requires e.Relate? && Exact(view) && !HasActive(view, ActiveKey(layout, e.source, e.kind, e.target))
    ensures Exact(BumpBoth(WithEdge(view, layout, e), layout, e.source, e.kind, e.target, 1))
  {
    hide Live, BumpBoth, Filed, ActiveRight;
    var linked := WithEdge(view, layout, e);
    var next := BumpBoth(linked, layout, e.source, e.kind, e.target, 1);
    RelatedFiled(view, layout, e);
    RelatedActive(view, layout, e);
    BumpsOnlyCounts(linked, layout, e.source, e.kind, e.target, 1);
    SameIndex(linked, next);
    forall key
      ensures CountIn(next, key) == |Live(next, key)|
    {
      RelatedLive(view, layout, e, key);
      CountAfter(linked, layout, e.source, e.kind, e.target, 1, key);
      assert CountIn(linked, key) == CountIn(view, key);
    }
  }

  // --- an edge deleted ---

  /** A delete of the active edge itself, or of none while both its counters are at 0. */
  predicate DeletesRightly(view: View, layout: nat, e: Event)
    requires e.Unrelate?
  {
    var a := ActiveKey(layout, e.source, e.kind, e.target);
    if HasActive(view, a) then ActiveEdge(view, a).value.createdAt == e.createdAt
    else
      && CountIn(view, CountKey(layout, true, e.target, e.kind)) == 0
      && CountIn(view, CountKey(layout, false, e.source, e.kind)) == 0
  }

  function DeletedKey(layout: nat, e: Event): EdgeKey
    requires e.Unrelate?
  {
    EdgeKey(layout, e.source, e.kind, e.createdAt, e.target)
  }

  /** The edge the delete names is there, and not deleted yet. */
  predicate DeletesOne(view: View, layout: nat, e: Event)
    requires e.Unrelate?
  {
    DeletedKey(layout, e) in view.edges && !view.edges[DeletedKey(layout, e)].deleted
  }

  lemma DeletedFiled(view: View, layout: nat, e: Event)
    requires e.Unrelate? && Filed(view)
    ensures Filed(WithoutEdge(view, layout, e))
  {
    var next := WithoutEdge(view, layout, e);
    forall k | k in next.edges && !next.edges[k].deleted
      ensures InOf(k) in next.incoming
    {
      assert k != DeletedKey(layout, e) && k in view.edges;
    }
  }

  lemma DeletedActive(view: View, layout: nat, e: Event)
    requires e.Unrelate? && ActiveRight(view)
    requires DeletesOne(view, layout, e) || !HasActive(view, ActiveKey(layout, e.source, e.kind, e.target))
    ensures ActiveRight(WithoutEdge(view, layout, e))
  {
    var next := WithoutEdge(view, layout, e);
    forall k | k in next.edges && !next.edges[k].deleted
      ensures ActiveOf(k) in next.active && next.active[ActiveOf(k)] == k
    {
      assert k != DeletedKey(layout, e) && k in view.edges;
    }
  }

  lemma DeletedLive(view: View, layout: nat, e: Event, key: CountKey)
    requires e.Unrelate? && Filed(view)
    ensures
      Live(WithoutEdge(view, layout, e), key) ==
      Live(view, key) - if DeletesOne(view, layout, e) && key.layout == layout then
        {view.edges[DeletedKey(layout, e)]} else {}
    ensures DeletesOne(view, layout, e) && key.layout == layout ==>
      (view.edges[DeletedKey(layout, e)] in Live(view, key) <==> Ends(key, layout, e.source, e.kind, e.target))
  {
    hide Live;
    var next := WithoutEdge(view, layout, e);
    DeletedFiled(view, layout, e);
    var k := DeletedKey(layout, e);
    if DeletesOne(view, layout, e) {
      assert k == KeyOf(layout, view.edges[k]);
      InLive(view, key, view.edges[k]);
    }
    forall x
      ensures x in Live(next, key) <==>
        x in Live(view, key) && !(DeletesOne(view, layout, e) && key.layout == layout && x == view.edges[k])
    {
      InLive(view, key, x);
      InLive(next, key, x);
    }
  }

  /** What the two counters and the edges come to after a delete. */
  lemma AfterDelete(view: View, layout: nat, e: Event, key: CountKey)
    requires e.Unrelate? && Filed(view) && CountersRight(view)
    ensures
      var next := BumpBoth(WithoutEdge(view, layout, e), layout, e.source, e.kind, e.target, -1);
      var ends := Ends(key, layout, e.source, e.kind, e.target);
      && CountIn(next, key) == (if ends then Bumped(CountIn(view, key), -1) else CountIn(view, key))
      && |Live(next, key)| == CountIn(view, key) - (if ends && DeletesOne(view, layout, e) then 1 else 0)
  {
    hide Live, BumpBoth, Filed, Bumped;
    var unlinked := WithoutEdge(view, layout, e);
    var next := BumpBoth(unlinked, layout, e.source, e.kind, e.target, -1);
    BumpsOnlyCounts(unlinked, layout, e.source, e.kind, e.target, -1);
    SameIndex(unlinked, next);
    CountAfter(unlinked, layout, e.source, e.kind, e.target, -1, key);
    assert CountIn(unlinked, key) == CountIn(view, key);
    DeletedLive(view, layout, e, key);
    assert CountIn(view, key) == |Live(view, key)|;
  }

  /** The active entry says which edge the delete finds. */
  lemma FindsActive(view: View, layout: nat, e: Event)
    requires e.Unrelate? && Filed(view) && ActiveRight(view)
    ensures DeletesOne(view, layout, e) <==>
      var a := ActiveKey(layout, e.source, e.kind, e.target);
      HasActive(view, a) && ActiveEdge(view, a).value.createdAt == e.createdAt
  {
    var a := ActiveKey(layout, e.source, e.kind, e.target);
    if a in view.active {
      assert ActiveOf(view.active[a]) == a && view.active[a] == KeyOf(layout, view.edges[view.active[a]]);
    }
  }

  /** While an active edge counts, both its counters are above 0. */
  lemma ActiveIsCounted(view: View, layout: nat, e: Event)
    requires e.Unrelate? && Exact(view) && HasActive(view, ActiveKey(layout, e.source, e.kind, e.target))
    ensures CountIn(view, CountKey(layout, true, e.target, e.kind)) > 0
    ensures CountIn(view, CountKey(layout, false, e.source, e.kind)) > 0
  {
    hide Live;
    var a := ActiveKey(layout, e.source, e.kind, e.target);
    var x := view.edges[view.active[a]];
    assert view.active[a] == KeyOf(layout, x);
    InLive(view, CountKey(layout, true, e.target, e.kind), x);
    InLive(view, CountKey(layout, false, e.source, e.kind), x);
    assert CountIn(view, CountKey(layout, true, e.target, e.kind)) ==
      |Live(view, CountKey(layout, true, e.target, e.kind))|;
    assert CountIn(view, CountKey(layout, false, e.source, e.kind)) ==
      |Live(view, CountKey(layout, false, e.source, e.kind))|;
  }

  lemma DeletingKeepsExactIff(view: View, layout: nat, e: Event)
    requires e.Unrelate? && Exact(view)
    ensures
      var next := BumpBoth(WithoutEdge(view, layout, e), layout, e.source, e.kind, e.target, -1);
      && (Exact(next) <==> DeletesRightly(view, layout, e))
      && (CountersRight(next) <==> DeletesRightly(view, layout, e))
  {
    hide Live, BumpBoth, Filed, ActiveRight, HasActive, ActiveEdge, DeletesOne;
    var unlinked := WithoutEdge(view, layout, e);
    var next := BumpBoth(unlinked, layout, e.source, e.kind, e.target, -1);
    var into, out := CountKey(layout, true, e.target, e.kind), CountKey(layout, false, e.source, e.kind);
    FindsActive(view, layout, e);
    AfterDelete(view, layout, e, into);
    AfterDelete(view, layout, e, out);
    if HasActive(view, ActiveKey(layout, e.source, e.kind, e.target)) {
      ActiveIsCounted(view, layout, e);
    }
    if DeletesRightly(view, layout, e) {
      forall key
        ensures CountIn(next, key) == |Live(next, key)|
      {
        AfterDelete(view, layout, e, key);
      }
      BumpsOnlyCounts(unlinked, layout, e.source, e.kind, e.target, -1);
      SameIndex(unlinked, next);
      DeletedFiled(view, layout, e);
      DeletedActive(view, layout, e);
    }
  }

  /**
   In every state where the counters are exact, an event leaves them so, and the
   counters right at all, but for a delete that does not name the active edge:
   one of another time, or one that finds none while a counter is above 0.
   */
  lemma CountersExactIff(env: Env, view: View, layout: nat, e: Event)
    requires !e.Membership? && Exact(view)
    ensures
      var right := e.Unrelate? && Unrelates(env, view, layout, e) ==> DeletesRightly(view, layout, e);
      && (Exact(Indexed(env, view, layout, e)) <==> right)
      && (CountersRight(Indexed(env, view, layout, e)) <==> right)
  {
    hide Indexed, Live, BumpBoth, WithEdge, WithoutEdge, Relates, Unrelates, Filed, ActiveRight, DeletesRightly,
      CountersRight;
    if e.Relate? && Relates(env, view, layout, e) {
      RelateIndexed(env, view, layout, e);
      RelatingKeepsExact(view, layout, e);
    } else if e.Unrelate? && Unrelates(env, view, layout, e) {
      UnrelateIndexed(env, view, layout, e);
      DeletingKeepsExactIff(view, layout, e);
    } else {
      OthersKeepIndex(env, view, layout, e);
      SameIndex(view, Indexed(env, view, layout, e));
      SameCounts(view, Indexed(env, view, layout, e));
    }
  }

  lemma RelateIndexed(env: Env, view: View, layout: nat, e: Event)
    requires e.Relate? && Relates(env, view, layout, e)
    ensures !HasActive(view, ActiveKey(layout, e.source, e.kind, e.target))
    ensures Indexed(env, view, layout, e) == BumpBoth(WithEdge(view, layout, e), layout, e.source, e.kind, e.target, 1)
  {
    hide Passes, HasActive, BumpBoth, WithEdge;
  }

  lemma UnrelateIndexed(env: Env, view: View, layout: nat, e: Event)
    requires e.Unrelate? && Unrelates(env, view, layout, e)
    ensures Indexed(env, view, layout, e) ==
        BumpBoth(WithoutEdge(view, layout, e), layout, e.source, e.kind, e.target, -1)
  {
    hide Passes, Unrelates, BumpBoth, WithoutEdge;
  }

  /** Only edges added and deleted touch the edges and their counters. */
  lemma OthersKeepIndex(env: Env, view: View, layout: nat, e: Event)
    requires !e.Membership?
    requires !(e.Relate? && Relates(env, view, layout, e)) && !(e.Unrelate? && Unrelates(env, view, layout, e))
    ensures SameEdges(Indexed(env, view, layout, e), view)
  {
    hide Passes, Relates, Unrelates, BumpBoth, WithEdge, WithoutEdge, WithTag, WithoutTag, WithMessage;
    WritesElsewhere(view, layout, e);
  }

  predicate SameEdges(a: View, b: View) {
    a.edges == b.edges && a.active == b.active && a.incoming == b.incoming && a.counts == b.counts
  }

  lemma WritesElsewhere(view: View, layout: nat, e: Event)
    ensures e.AddTag? ==> SameEdges(WithTag(view, layout, e), view)
    ensures e.RemoveTag? ==> SameEdges(WithoutTag(view, layout, e), view)
    ensures e.Say? ==> SameEdges(WithMessage(view, e), view)
  {
  }

  lemma SameCounts(a: View, b: View)
    requires a.counts == b.counts && forall key :: Live(a, key) == Live(b, key)
    ensures CountersRight(a) == CountersRight(b)
  {
    hide Live;
    assert forall key :: CountIn(a, key) == CountIn(b, key);
  }

  // --- counters that go wrong ---

  const ANYONE := Env(Roles.CLOSED, false, id => "bob", None)

  /** bob's vote for a post, at time 2, and two deletes: of another vote, and of this one at another time. */
  const VOTE := Relate("vote1", "post", "on", "bob", 2, None, None, true, true)
  const UNVOTE := Unrelate("vote2", "post", "on", 2, "bob", true)
  const STALE := Unrelate("vote1", "post", "on", 1, "bob", true)

  function Empty(): View {
    View(Roles.Start(Roles.Host(map[], {}, false)), map[], map[], map[], map[], {}, map[], map[])
  }

  function Voted(): View {
    BumpBoth(WithEdge(Empty(), 2, VOTE), 2, "vote1", "on", "post", 1)
  }

  lemma VotedIsExact()
    ensures Exact(Voted()) && Voted() == Indexed(ANYONE, Empty(), 2, VOTE)
  {
    hide Exact;
    EmptyIsExact(Empty());
    CountersExactIff(ANYONE, Empty(), 2, VOTE);
  }

  lemma VoteCounted()
    ensures CountIn(Voted(), CountKey(2, true, "post", "on")) == 1
    ensures !HasActive(Voted(), ActiveKey(2, "vote2", "on", "post"))
    ensures HasActive(Voted(), ActiveKey(2, "vote1", "on", "post"))
    ensures ActiveEdge(Voted(), ActiveKey(2, "vote1", "on", "post")).value.createdAt == 2
  {
    assert "vote1"[4] != "vote2"[4];
    CountAfter(WithEdge(Empty(), 2, VOTE), 2, "vote1", "on", "post", 1, CountKey(2, true, "post", "on"));
    BumpsOnlyCounts(WithEdge(Empty(), 2, VOTE), 2, "vote1", "on", "post", 1);
  }

  /** The delete of another vote that never came: the post counts no vote, and has one. */
  lemma DeleteMayMiscount()
    ensures Exact(Voted()) && Unrelates(ANYONE, Voted(), 2, UNVOTE)
    ensures !CountersRight(Indexed(ANYONE, Voted(), 2, UNVOTE))
  {
    hide Exact, CountersRight, Voted, Indexed, CountIn, HasActive, ActiveEdge;
    VotedIsExact();
    VoteCounted();
    CountersExactIff(ANYONE, Voted(), 2, UNVOTE);
  }

  /** The delete of the vote at an earlier time finds an active edge, and drops it from the counters only. */
  lemma StaleDeleteMayMiscount()
    ensures Exact(Voted()) && Unrelates(ANYONE, Voted(), 2, STALE)
    ensures HasActive(Voted(), ActiveKey(2, "vote1", "on", "post"))
    ensures !CountersRight(Indexed(ANYONE, Voted(), 2, STALE))
  {
    hide Exact, CountersRight, Voted, Indexed, CountIn, HasActive, ActiveEdge;
    VotedIsExact();
    VoteCounted();
    CountersExactIff(ANYONE, Voted(), 2, STALE);
  }

  lemma EmptyIsExact(view: View)
    requires view.active == map[] && view.counts == map[] && view.edges == map[] && view.incoming == map[]
    ensures Exact(view)
  {
    assert forall key :: Live(view, key) == {};
  }
}
