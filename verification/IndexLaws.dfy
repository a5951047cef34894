/**
 What applying a context's log promises whoever reads the index: whose edges, tags
 and messages there are, what each event changes, and what the answers mean.
 */
module IndexLaws {
  import opened ContextApply
  import opened Options
  import Roles = ContextRoles

  // --- where everything comes from ---

  /** The same edge, deleted since or not. */
  predicate SameBut(x: Edge, y: Edge) {
    x == y || x == y.(deleted := true)
  }

  /** An edge its source's author asked for, signed if signatures count. */
  predicate Asked(env: Env, x: Edge, n: Node) {
    && n.event.Relate? && !n.optimistic
    && (env.verifySignatures ==> n.event.signed) && n.event.dataFits
    && x.author == n.event.author == env.authorOf(x.source)
    && SameBut(x, NewEdge(n.event))
  }

  predicate Tagged(t: TagKey, n: Node) {
    && n.event.AddTag? && !n.optimistic && n.event.signed
    && t == TagKey(t.layout, n.event.tag, n.event.at, n.event.entity, n.event.author)
  }

  predicate Said(key: (int, string), m: Message, n: Node) {
    && n.event.Say? && !n.optimistic
    && m == Message(n.event.text, n.event.author) && key.0 == n.event.at && key.1 <= n.event.author
  }

  ghost predicate EdgeFrom(env: Env, was: View, nodes: seq<Node>, k: EdgeKey, x: Edge) {
    (k in was.edges && SameBut(x, was.edges[k])) || exists n :: n in nodes && Asked(env, x, n)
  }

  ghost predicate TagFrom(was: View, nodes: seq<Node>, t: TagKey) {
    t in was.tags || exists n :: n in nodes && Tagged(t, n)
  }

  ghost predicate MessageFrom(was: View, nodes: seq<Node>, key: (int, string), m: Message) {
    (key in was.messages && m == was.messages[key]) || exists n :: n in nodes && Said(key, m, n)
  }

  /** All there is was there before or comes from these events. */
  ghost predicate ComesFrom(env: Env, was: View, nodes: seq<Node>, now: View) {
    && (forall k :: k in now.edges ==> EdgeFrom(env, was, nodes, k, now.edges[k]))
    && (forall t :: t in now.tags ==> TagFrom(was, nodes, t))
    && (forall key :: key in now.messages ==> MessageFrom(was, nodes, key, now.messages[key]))
  }

  /** Whatever an event does, it changes roles only or is applied to the index. */
  lemma AloneIs(env: Env, p: Progress, node: Node)
    requires Sound(p.view)
    ensures
      || SameIndexed(p.view, Alone(env, p, node).view)
      || (!node.event.Membership? && !node.optimistic &&
          Alone(env, p, node).view == Indexed(env, p.view, Roles.RecordOf(p.view.roles).layout, node.event))
  {
    hide Indexed, Roles.Refused, Roles.RecordOf, Member, Interrupted, Sound, SameIndexed;
    RolesOnly(env, p.view, if node.event.Membership? then node.event.e else Roles.AddWriter(""), node.optimistic);
  }

  lemma RolesOnly(env: Env, view: View, e: Roles.Event, optimistic: bool)
    requires Sound(view)
    ensures SameIndexed(view, Member(env, view, e, optimistic)) && SameIndexed(view, Interrupted(view))
    ensures SameIndexed(view, view)
    ensures Interrupted(view).roles == view.roles.(host := view.roles.host.(interrupted := true))
  {
    hide Roles.Step;
  }

  lemma AloneComesFrom(env: Env, p: Progress, node: Node)
    requires Sound(p.view)
    ensures ComesFrom(env, p.view, [node], Alone(env, p, node).view)
  {
    hide Indexed, Alone, Sound, ComesFrom;
    AloneIs(env, p, node);
    if SameIndexed(p.view, Alone(env, p, node).view) {
      SameComes(env, p.view, node, Alone(env, p, node).view);
    } else {
      IndexedComesFrom(env, p.view, Roles.RecordOf(p.view.roles).layout, node);
    }
  }

  lemma SameComes(env: Env, was: View, node: Node, now: View)
    requires SameIndexed(was, now)
    ensures ComesFrom(env, was, [node], now)
  {
  }

  lemma TagComes(env: Env, view: View, layout: nat, node: Node)
    requires !node.optimistic && node.event.AddTag? && node.event.signed
    ensures ComesFrom(env, view, [node], WithTag(view, layout, node.event))
  {
    assert node in [node];
  }

  lemma TagStays(env: Env, view: View, layout: nat, node: Node)
    requires node.event.RemoveTag?
    ensures ComesFrom(env, view, [node], WithoutTag(view, layout, node.event))
  {
  }

  lemma MessageComes(env: Env, view: View, node: Node)
    requires !node.optimistic && node.event.Say?
    ensures ComesFrom(env, view, [node], WithMessage(view, node.event))
  {
    assert node in [node];
  }

  lemma EdgeComes(env: Env, view: View, layout: nat, node: Node)
    requires !node.optimistic && node.event.Relate? && Relates(env, view, layout, node.event)
    ensures ComesFrom(env, view, [node], WithEdge(view, layout, node.event))
  {
    hide Passes, HasActive;
    assert node in [node] && Asked(env, NewEdge(node.event), node);
  }

  lemma EdgeStays(env: Env, view: View, layout: nat, node: Node)
    requires node.event.Unrelate?
    ensures ComesFrom(env, view, [node], WithoutEdge(view, layout, node.event))
  {
  }

  lemma IndexedComesFrom(env: Env, view: View, layout: nat, node: Node)
    requires !node.event.Membership? && !node.optimistic
    ensures ComesFrom(env, view, [node], Indexed(env, view, layout, node.event))
  {
    hide Passes, Relates, Unrelates, BumpBoth, WithEdge, WithoutEdge, WithTag, WithoutTag, WithMessage, ComesFrom;
    var e := node.event;
    SameComes(env, view, node, view);
    if e.Relate? && Relates(env, view, layout, e) {
      EdgeComes(env, view, layout, node);
      BumpedComes(env, view, node, WithEdge(view, layout, e), layout, e.source, e.kind, e.target, 1);
    } else if e.Unrelate? {
      EdgeStays(env, view, layout, node);
      BumpedComes(env, view, node, WithoutEdge(view, layout, e), layout, e.source, e.kind, e.target, -1);
    } else if e.AddTag? && e.signed {
      TagComes(env, view, layout, node);
    } else if e.RemoveTag? {
      TagStays(env, view, layout, node);
    } else if e.Say? {
      MessageComes(env, view, node);
    }
  }

  lemma BumpedComes(env: Env, was: View, node: Node, now: View, layout: nat, source: Id, kind: string, target: Id,
          delta: int)
    requires ComesFrom(env, was, [node], now)
    ensures ComesFrom(env, was, [node], BumpBoth(now, layout, source, kind, target, delta))
  {
    BumpsOnlyCounts(now, layout, source, kind, target, delta);
    hide BumpBoth, EdgeFrom, TagFrom, MessageFrom;
  }

  lemma EdgeOnwards(env: Env, was: View, n: Node, mid: View, nodes: seq<Node>, k: EdgeKey, x: Edge)
    requires nodes != [] && nodes[0] == n
    requires ComesFrom(env, was, [n], mid) && EdgeFrom(env, mid, nodes[1..], k, x)
    ensures EdgeFrom(env, was, nodes, k, x)
  {
    if exists m :: m in nodes[1..] && Asked(env, x, m) {
      var m :| m in nodes[1..] && Asked(env, x, m);
      assert m in nodes;
    } else {
      assert EdgeFrom(env, was, [n], k, mid.edges[k]);
      if !(k in was.edges && SameBut(mid.edges[k], was.edges[k])) {
        var m :| m in [n] && Asked(env, mid.edges[k], m);
        assert m in nodes && Asked(env, x, m);
      }
    }
  }

  lemma Onwards(env: Env, was: View, mid: View, nodes: seq<Node>, now: View)
    requires nodes != []
    requires ComesFrom(env, was, nodes[..1], mid) && ComesFrom(env, mid, nodes[1..], now)
    ensures ComesFrom(env, was, nodes, now)
  {
    hide Asked, Tagged, Said;
    assert nodes[..1] == [nodes[0]] && nodes[0] in nodes;
    forall k | k in now.edges ensures EdgeFrom(env, was, nodes, k, now.edges[k]) {
      EdgeOnwards(env, was, nodes[0], mid, nodes, k, now.edges[k]);
    }
    forall t | t in now.tags ensures TagFrom(was, nodes, t) {
      assert TagFrom(mid, nodes[1..], t);
    }
    forall key | key in now.messages ensures MessageFrom(was, nodes, key, now.messages[key]) {
      assert MessageFrom(mid, nodes[1..], key, now.messages[key]);
    }
  }

  /**
   After any batch: every edge, deleted or not, was there before or its source's
   author asked for it; every tag was there or its author signed it; every message
   was there or was said by its author then.
   */
  lemma {:induction false} AllComesFromEvents(env: Env, p: Progress, nodes: seq<Node>)
    requires Roles.Inv(p.view.roles)
    ensures ComesFrom(env, p.view, nodes, AllAlone(env, p, nodes).view)
    decreases nodes
  {
    hide Roles.Inv, Alone, EdgeFrom, TagFrom, MessageFrom;
    if nodes == [] {
      NoMore(env, p, nodes);
      NothingComes(env, p.view);
    } else {
      OneMore(env, p, nodes);
      AloneComesFrom(env, p, nodes[0]);
      assert nodes[..1] == [nodes[0]];
      AllComesFromEvents(env, Alone(env, p, nodes[0]), nodes[1..]);
      Onwards(env, p.view, Alone(env, p, nodes[0]).view, nodes, AllAlone(env, p, nodes).view);
    }
  }

  lemma NothingComes(env: Env, view: View)
    ensures ComesFrom(env, view, [], view)
  {
  }

  /** No edge is anyone's but its source's author's, so layout 2 may leave the author out. */
  ghost predicate AuthorsRight(env: Env, view: View) {
    forall k :: k in view.edges ==> view.edges[k].author == env.authorOf(view.edges[k].source)
  }

  lemma BatchKeepsAuthors(env: Env, p: Progress, nodes: seq<Node>)
    requires Roles.Inv(p.view.roles) && AuthorsRight(env, p.view)
    ensures AuthorsRight(env, AllAlone(env, p, nodes).view)
  {
    hide Roles.Inv;
    AllComesFromEvents(env, p, nodes);
  }

  // --- what one event changes ---

  /** Everything but roles. */
  predicate SameIndexed(a: View, b: View) {
    SameEdges(a, b) && SameTags(a, b) && a.messages == b.messages
  }

  /** What is not signed changes nothing, and no rule is asked about it. */
  lemma UnsignedChangesNothing(env: Env, p: Progress, node: Node)
    requires Sound(p.view)
    requires
      match node.event
      case Relate(_, _, _, _, _, _, _, _, signed) => env.verifySignatures && !signed
      case Unrelate(_, _, _, _, _, signed) => env.verifySignatures && !signed
      case AddTag(_, _, _, _, signed) => !signed
      case RemoveTag(_, _, _, signed) => !signed
      case _ => false
    ensures SameIndexed(p.view, Alone(env, p, node).view) && AloneAsks(env, p, node) == []
  {
    hide Passes, HasActive, Roles.Refused, Roles.RecordOf, AllQuestions;
  }

  /**
   A context this peer may not apply stops the batch at its next event that is not
   an opening one, and no app event of a device that is no writer counts.
   */
  lemma NotApplied(env: Env, p: Progress, node: Node)
    requires Sound(p.view)
    ensures
      var next, refused := Alone(env, p, node), Roles.Refused(env.roles, Roles.RecordOf(p.view.roles));
      && (next.stopped <==> p.stopped || (refused && !Opens(node.event) && !node.event.Malformed?))
      && (next.stopped || node.optimistic || node.event.Malformed? || node.event.Membership? ==>
           SameIndexed(p.view, next.view) && AloneAsks(env, p, node) == [])
      && (p.stopped || node.event.Malformed? ==> next == p)
      && (next.stopped && !p.stopped ==>
           next.view.roles == p.view.roles.(host := p.view.roles.host.(interrupted := true)))
  {
    hide Roles.Refused, Roles.RecordOf, Member, Interrupted, Sound, SameIndexed, Indexed;
    RolesOnly(env, p.view, if node.event.Membership? then node.event.e else Roles.AddWriter(""), node.optimistic);
  }

  /** Every other event counts: an app event for the index, one of the roles for those, and the batch goes on. */
  lemma Applied(env: Env, p: Progress, node: Node)
    requires Sound(p.view) && !p.stopped && !node.event.Malformed?
    requires Opens(node.event) || !Roles.Refused(env.roles, Roles.RecordOf(p.view.roles))
    ensures
      var next := Alone(env, p, node);
      && !next.stopped
      && (if node.event.Membership? then
            next.view.roles == Roles.Step(env.roles, p.view.roles, node.event.e, node.optimistic)
          else next.view.roles == p.view.roles)
      && (!node.event.Membership? && !node.optimistic ==>
           next.view == Indexed(env, p.view, Roles.RecordOf(p.view.roles).layout, node.event))
  {
    hide Roles.Refused, Roles.RecordOf, Roles.Step, Indexed, Interrupted;
    if !node.event.Membership? {
      IndexedKeepsRoles(env, p.view, Roles.RecordOf(p.view.roles).layout, node.event);
    }
  }

  /** The edges a reader finds. */
  predicate IsEdge(view: View, layout: nat, x: Edge) {
    KeyOf(layout, x) in view.edges && view.edges[KeyOf(layout, x)] == x && !x.deleted
  }

  /** An edge is added exactly when it fits, its source's author asks for it, the rules accept and there is none yet. */
  predicate MayAdd(env: Env, view: View, layout: nat, e: Event)
    requires e.Relate?
  {
    && (env.verifySignatures ==> e.signed) && e.dataFits && e.author == env.authorOf(e.source)
    && Passes(env, view, layout, e) && !HasActive(view, ActiveKey(layout, e.source, e.kind, e.target))
  }

  lemma RelationAdded(env: Env, view: View, layout: nat, e: Event)
    requires e.Relate? && Exact(view)
    ensures
      var next := Indexed(env, view, layout, e);
      if MayAdd(env, view, layout, e) then
        && (forall key :: Live(next, key) ==
             Live(view, key) + if Ends(key, layout, e.source, e.kind, e.target) then {NewEdge(e)} else {})
        && (forall a :: HasActive(next, a) <==>
             HasActive(view, a) || a == ActiveKey(layout, e.source, e.kind, e.target))
        && SameTags(next, view) && next.messages == view.messages
      else next == view
  {
    hide Passes, Live, HasActive, BumpBoth, Filed, ActiveRight, CountersRight;
    if MayAdd(env, view, layout, e) {
      ActiveAdded(view, layout, e);
      var linked := WithEdge(view, layout, e);
      forall key ensures Live(linked, key) ==
                 Live(view, key) + if Ends(key, layout, e.source, e.kind, e.target) then {NewEdge(e)} else {}
      {
        RelatedLive(view, layout, e, key);
      }
      BumpsOnlyCounts(linked, layout, e.source, e.kind, e.target, 1);
      SameIndex(linked, Indexed(env, view, layout, e));
      SameActive(linked, Indexed(env, view, layout, e));
    }
  }

  lemma SameActive(a: View, b: View)
    requires a.active == b.active && a.edges == b.edges
    ensures forall key :: HasActive(a, key) == HasActive(b, key)
  {
  }

  lemma ActiveAdded(view: View, layout: nat, e: Event)
    requires e.Relate? && ActiveRight(view) && !HasActive(view, ActiveKey(layout, e.source, e.kind, e.target))
    ensures forall a :: HasActive(WithEdge(view, layout, e), a) <==>
              HasActive(view, a) || a == ActiveKey(layout, e.source, e.kind, e.target)
  {
  }

  lemma ActiveDeleted(view: View, layout: nat, e: Event)
    requires e.Unrelate? && ActiveRight(view)
    ensures forall a :: HasActive(WithoutEdge(view, layout, e), a) <==>
              HasActive(view, a) && a != ActiveKey(layout, e.source, e.kind, e.target)
  {
  }

  predicate SameTags(a: View, b: View) {
    a.tags == b.tags && a.tagRefs == b.tagRefs
  }

  /** Whoever the rules accept deletes the edge named, if it is there, and the pair has no active one then. */
  lemma RelationDeleted(env: Env, view: View, layout: nat, e: Event)
    requires e.Unrelate? && Exact(view)
    ensures
      var next := Indexed(env, view, layout, e);
      if (env.verifySignatures ==> e.signed) && Passes(env, view, layout, e) then
        && (forall x :: IsEdge(next, layout, x) <==>
          IsEdge(view, layout, x) && KeyOf(layout, x) != DeletedKey(layout, e))
        && (forall a :: HasActive(next, a) <==>
             HasActive(view, a) && a != ActiveKey(layout, e.source, e.kind, e.target))
        && SameTags(next, view) && next.messages == view.messages
      else next == view
  {
    hide Passes, Live, HasActive, BumpBoth, ActiveRight, CountersRight;
    var unlinked := WithoutEdge(view, layout, e);
    ActiveDeleted(view, layout, e);
    BumpsOnlyCounts(unlinked, layout, e.source, e.kind, e.target, -1);
    SameActive(unlinked, BumpBoth(unlinked, layout, e.source, e.kind, e.target, -1));
  }

  // --- the app's rules ---

  /** A conversation: each reply is the index's answer to what the rules ask after those before it. */
  ghost predicate Answered(rules: Rules, view: View, layout: nat, e: Event, replies: seq<Reply>) {
    forall i :: 0 <= i < |replies| ==>
      rules.next(e, replies[..i]).Ask? && replies[i] == Answer(view, layout, rules.next(e, replies[..i]).query)
  }

  lemma AnsweredOneMore(rules: Rules, view: View, layout: nat, e: Event, replies: seq<Reply>)
    requires Answered(rules, view, layout, e, replies) && rules.next(e, replies).Ask?
    ensures Answered(rules, view, layout, e, replies + [Answer(view, layout, rules.next(e, replies).query)])
  {
    hide Answer;
    var more := replies + [Answer(view, layout, rules.next(e, replies).query)];
    forall i | 0 <= i < |more|
      ensures rules.next(e, more[..i]).Ask? && more[i] == Answer(view, layout, rules.next(e, more[..i]).query)
    {
      assert more[..i] == replies[..i];
      assert replies[..|replies|] == replies;
    }
  }

  lemma {:induction false} JudgedIs(rules: Rules, view: View, layout: nat, e: Event, replies: seq<Reply>, left: nat)
    requires Answered(rules, view, layout, e, replies)
    ensures Judged(rules, view, layout, e, replies, left) <==>
            exists all: seq<Reply> :: replies <= all && |all| <= |replies| + left &&
              Answered(rules, view, layout, e, all) && rules.next(e, all) == Accept
    decreases left
  {
    hide Answer, Answered;
    match rules.next(e, replies)
    case Accept => assert replies <= replies;
    case Reject => OnlyAsksGoOn(rules, view, layout, e, replies);
    case Ask(query) =>
      OnlyAsksGoOn(rules, view, layout, e, replies);
      if left > 0 {
        var next := replies + [Answer(view, layout, query)];
        AnsweredOneMore(rules, view, layout, e, replies);
        JudgedIs(rules, view, layout, e, next, left - 1);
      }
  }

  lemma OnlyAsksGoOn(rules: Rules, view: View, layout: nat, e: Event, replies: seq<Reply>)
    ensures forall all: seq<Reply> :: replies <= all && Answered(rules, view, layout, e, all) ==>
      all == replies ||
      (rules.next(e, replies).Ask? && replies + [Answer(view, layout, rules.next(e, replies).query)] <= all)
  {
    hide Answer;
    forall all: seq<Reply> | replies <= all && Answered(rules, view, layout, e, all)
      ensures all == replies ||
        (rules.next(e, replies).Ask? && replies + [Answer(view, layout, rules.next(e, replies).query)] <= all)
    {
      assert all[..|replies|] == replies;
      assert |all| == |replies| ==> all == replies;
    }
  }

  /**
   An event passes if there are no rules, or if a conversation of at most `most`
   questions, each answered by the index, leads them to accept; and not otherwise.
   */
  lemma PassesIff(env: Env, view: View, layout: nat, e: Event)
    ensures
      Passes(env, view, layout, e) <==>
      (env.rules.None? ||
       exists replies: seq<Reply> :: |replies| <= env.rules.value.most &&
         Answered(env.rules.value, view, layout, e, replies) && env.rules.value.next(e, replies) == Accept)
  {
    hide Answer;
    if env.rules.Some? {
      JudgedIs(env.rules.value, view, layout, e, [], env.rules.value.most);
    }
  }

  function RepliesOf(asked: seq<Asking>): seq<Reply> {
    seq(|asked|, i requires 0 <= i < |asked| => asked[i].reply)
  }

  /** What the rules asked about an event, and were told, until they stopped asking or had no question left. */
  ghost predicate Conversation(rules: Rules, view: View, layout: nat, e: Event, asked: seq<Asking>) {
    && Answered(rules, view, layout, e, RepliesOf(asked))
    && (forall i :: 0 <= i < |asked| ==>
         asked[i].event == e && rules.next(e, RepliesOf(asked)[..i]) == Ask(asked[i].query))
    && |asked| <= rules.most && (|asked| == rules.most || !rules.next(e, RepliesOf(asked)).Ask?)
  }

  /** The same, from `done` on. */
  lemma {:induction false} GoesOn(rules: Rules, view: View, layout: nat, e: Event, done: seq<Asking>, left: nat)
    requires Answered(rules, view, layout, e, RepliesOf(done)) && |done| + left == rules.most
    requires forall i :: 0 <= i < |done| ==>
      done[i].event == e && rules.next(e, RepliesOf(done)[..i]) == Ask(done[i].query)
    ensures
      var all := done + Questions(rules, view, layout, e, RepliesOf(done), left);
      && Conversation(rules, view, layout, e, all)
      && (Judged(rules, view, layout, e, RepliesOf(done), left) <==> rules.next(e, RepliesOf(all)) == Accept)
    decreases left
  {
    hide Answer, Answered;
    var replies := RepliesOf(done);
    OneMove(rules, view, layout, e, replies, left, done);
    if rules.next(e, replies).Ask? && left > 0 {
      var query := rules.next(e, replies).query;
      var more := done + [Asking(e, query, Answer(view, layout, query))];
      assert RepliesOf(more) == replies + [Answer(view, layout, query)];
      AnsweredOneMore(rules, view, layout, e, replies);
      forall i | 0 <= i < |more|
        ensures more[i].event == e && rules.next(e, RepliesOf(more)[..i]) == Ask(more[i].query)
      {
        assert RepliesOf(more)[..i] == if i < |done| then replies[..i] else replies;
      }
      GoesOn(rules, view, layout, e, more, left - 1);
    } else {
      var none: seq<Asking> := [];
      assert done + none == done;
    }
  }

  /** The app's rules get to an event once everything else about it is in order. */
  predicate Reaches(env: Env, e: Event) {
    match e
    case Relate(source, _, _, author, _, _, _, dataFits, signed) =>
      (env.verifySignatures ==> signed) && dataFits && author == env.authorOf(source)
    case Unrelate(_, _, _, _, _, signed) => env.verifySignatures ==> signed
    case AddTag(_, _, _, _, signed) => signed
    case RemoveTag(_, _, _, signed) => signed
    case Say(_, _, _) => true
    case _ => false
  }

  /**
   The rules are asked about exactly the app events of writers that are otherwise in
   order, in a context this peer applies; and of those they judge the conversation.
   */
  lemma AskedExactly(env: Env, p: Progress, node: Node)
    ensures
      var record := Roles.RecordOf(p.view.roles);
      var asked := AloneAsks(env, p, node);
      if env.rules.None? || p.stopped || node.optimistic || Roles.Refused(env.roles, record) ||
        !Reaches(env, node.event)
      then asked == []
      else
        && Conversation(env.rules.value, p.view, record.layout, node.event, asked)
        && (Passes(env, p.view, record.layout, node.event) <==>
             env.rules.value.next(node.event, RepliesOf(asked)) == Accept)
  {
    hide Roles.Refused, Roles.RecordOf, Questions, Judged, Conversation;
    if env.rules.Some? {
      var rules, layout := env.rules.value, Roles.RecordOf(p.view.roles).layout;
      assert RepliesOf([]) == [];
      GoesOn(rules, p.view, layout, node.event, [], rules.most);
      assert [] + Questions(rules, p.view, layout, node.event, [], rules.most) ==
        Questions(rules, p.view, layout, node.event, [], rules.most);
    }
  }

  // --- tags ---

  function RefOf(t: TagKey): TagRef {
    TagRef(t.layout, t.tag, t.entity, t.author)
  }

  /** Each reference leads to a tag of its own. */
  ghost predicate TagsFiled(view: View) {
    forall ref :: ref in view.tagRefs ==> view.tagRefs[ref] in view.tags && RefOf(view.tagRefs[ref]) == ref
  }

  /** And each tag is led to. */
  ghost predicate TagsExact(view: View) {
    TagsFiled(view) && forall t :: t in view.tags ==> RefOf(t) in view.tagRefs && view.tagRefs[RefOf(t)] == t
  }

  /** A tag and its reference come with a signed event the rules accept, and go only by their own author's. */
  lemma TagsFollow(env: Env, view: View, layout: nat, e: Event)
    requires !e.Membership?
    ensures
      var next := Indexed(env, view, layout, e);
      && (forall ref :: ref in next.tagRefs <==>
           if e.AddTag? && e.signed && Passes(env, view, layout, e) && ref == TagRef(layout, e.tag, e.entity, e.author)
           then true
           else if e.RemoveTag? && e.signed && Passes(env, view, layout, e) &&
             ref == TagRef(layout, e.tag, e.entity, e.author) then false
           else ref in view.tagRefs)
      && (TagsFiled(view) ==> TagsFiled(next))
  {
    hide Passes, HasActive;
  }

  /** The author's tag is there already, at another time: adding it again leaves the first one behind. */
  predicate TagsTwice(view: View, layout: nat, e: Event)
    requires e.AddTag?
  {
    var ref := TagRef(layout, e.tag, e.entity, e.author);
    ref in view.tagRefs && view.tagRefs[ref].createdAt != e.at
  }

  /** References and tags stay in step if and only if nobody tags the same again at another time. */
  lemma TagsExactIff(env: Env, view: View, layout: nat, e: Event)
    requires !e.Membership? && TagsExact(view)
    ensures TagsExact(Indexed(env, view, layout, e)) <==>
            !(e.AddTag? && e.signed && Passes(env, view, layout, e) && TagsTwice(view, layout, e))
  {
    hide Passes, HasActive;
    var next := Indexed(env, view, layout, e);
    if e.AddTag? && e.signed && Passes(env, view, layout, e) {
      var ref := TagRef(layout, e.tag, e.entity, e.author);
      if TagsTwice(view, layout, e) {
        assert view.tagRefs[ref] in next.tags;
      }
    }
  }

  /** bob tags a post twice and takes the tag back: nobody is told of it any more, and a reader of all tags finds it. */
  lemma TagLeftBehind()
    ensures
      var once := Indexed(ANYONE, Empty(), 2, AddTag("post", "fun", "bob", 1, true));
      var twice := Indexed(ANYONE, once, 2, AddTag("post", "fun", "bob", 2, true));
      var back := Indexed(ANYONE, twice, 2, RemoveTag("post", "fun", "bob", true));
      && TagKey(2, "fun", 1, "post", "bob") in back.tags
      && Answer(back, 2, HasTag("post", "fun")) == Held(false)
  {
    var once := Indexed(ANYONE, Empty(), 2, AddTag("post", "fun", "bob", 1, true));
    var twice := Indexed(ANYONE, once, 2, AddTag("post", "fun", "bob", 2, true));
    assert once.tags == {TagKey(2, "fun", 1, "post", "bob")};
    assert twice.tagRefs.Keys == {TagRef(2, "fun", "post", "bob")};
  }

  // --- messages ---

  /** The start of an author's key, 8 characters or all of it. */
  predicate Short(author: string, short: string) {
    |short| <= 8 && short <= author && (|short| == 8 || short == author)
  }

  lemma ShortIs(author: string, short: string)
    ensures Short(author, short) <==> short == if |author| > 8 then author[..8] else author
  {
    if |short| == 8 && short <= author {
      assert short == author[..8];
    }
  }

  /** A message the rules accept is kept under its time and the start of its author's key, any other stays as it is. */
  lemma MessageKept(env: Env, view: View, layout: nat, e: Event, at: int, short: string)
    requires e.Say?
    ensures
      var next, here := Indexed(env, view, layout, e), Passes(env, view, layout, e) && at == e.at &&
        Short(e.author, short);
      && ((at, short) in next.messages <==> here || (at, short) in view.messages)
      && ((at, short) in next.messages ==>
           next.messages[(at, short)] == if here then Message(e.text, e.author) else view.messages[(at, short)])
      && SameEdges(next, view) && SameTags(next, view)
  {
    hide Passes, Short;
    ShortIs(e.author, short);
  }

  // --- what the answers mean ---

  lemma EdgesMean(view: View, layout: nat, entity: Id, incoming: bool, kind: Option<string>, x: Edge)
    requires Filed(view)
    ensures x in EdgesOf(view, layout, entity, incoming, kind) <==>
            && IsEdge(view, layout, x) && (if incoming then x.target else x.source) == entity
            && (kind.Some? ==> x.kind == kind.value)
  {
    var k := KeyOf(layout, x);
    if IsEdge(view, layout, x) {
      assert InOf(k) in view.incoming && view.incoming[InOf(k)] == k;
    }
  }

  /** Whatever the index holds, an edge answered for is one that is there and not deleted. */
  lemma ActiveIsThere(view: View, layout: nat, source: Id, kind: string, target: Id)
    requires Answer(view, layout, HasEdge(source, kind, target)) == Held(true)
    ensures
      var a := ActiveKey(layout, source, kind, target);
      a in view.active && view.active[a] in view.edges && !view.edges[view.active[a]].deleted
  {
  }

  /** There is an active edge of a pair exactly when a reader is given one. */
  lemma ActiveMeans(view: View, layout: nat, source: Id, kind: string, target: Id)
    requires Exact(view)
    ensures HasActive(view, ActiveKey(layout, source, kind, target)) <==>
            exists x :: x in EdgesOf(view, layout, source, false, Some(kind)) && x.target == target
  {
    hide CountersRight;
    var a := ActiveKey(layout, source, kind, target);
    if HasActive(view, a) {
      var x := view.edges[view.active[a]];
      EdgesMean(view, layout, source, false, Some(kind), x);
    }
    if exists x :: x in EdgesOf(view, layout, source, false, Some(kind)) && x.target == target {
      var x :| x in EdgesOf(view, layout, source, false, Some(kind)) && x.target == target;
      EdgesMean(view, layout, source, false, Some(kind), x);
      assert ActiveOf(KeyOf(layout, x)) == a;
    }
  }

  /**
   While the index is exact, the rules are told of edges and counts what a reader
   would see who goes through the edges and tags, one by one.
   */
  lemma AnswersRight(view: View, layout: nat, q: Query)
    requires Exact(view) && TagsExact(view)
    ensures
      match q
      case HasEdge(source, kind, target) =>
        Answer(view, layout, q) ==
        Held(exists x :: x in EdgesOf(view, layout, source, false, Some(kind)) && x.target == target)
      case Edges(entity, incoming, only) =>
        Answer(view, layout, q).Found? && forall x :: x in Answer(view, layout, q).edges <==>
          && IsEdge(view, layout, x) && (if incoming then x.target else x.source) == entity
          && (only.Some? ==> x.kind == only.value)
      case Count(incoming, entity, kind) =>
        Answer(view, layout, q) == Counted(|EdgesOf(view, layout, entity, incoming, Some(kind))|)
      case HasTag(entity, tag) =>
        Answer(view, layout, q) ==
        Held(exists t :: t in view.tags && t.layout == layout && t.entity == entity && t.tag == tag)
  {
    hide EdgesOf, HasActive, Filed, ActiveRight;
    match q {
      case HasEdge(source, kind, target) => ActiveMeans(view, layout, source, kind, target);
      case Edges(entity, incoming, only) =>
        forall x
          ensures x in Answer(view, layout, q).edges <==>
                  && IsEdge(view, layout, x) && (if incoming then x.target else x.source) == entity
                  && (only.Some? ==> x.kind == only.value)
        {
          EdgesMean(view, layout, entity, incoming, only, x);
        }
      case Count(incoming, entity, kind) =>
        var key := CountKey(layout, incoming, entity, kind);
        assert CountIn(view, key) == |Live(view, key)|;
      case HasTag(entity, tag) =>
    }
  }
}
