/**
 The record types an app declares and a space stores (lib/types.js): what one
 version of them may change of another, and what an app adds to a space's.
 */
module RecordTypes {
  import opened Varint
  import opened Fields
  import opened Options

  /** A permission on records of a type. */
  datatype Rule = ByAuthor | ByMembers | ByPermission(permission: string)

  /** A type as an app declares it. */
  datatype Declaration = Declaration(
    fields: seq<Field>, links: map<string, seq<string>>, onePerMember: bool, editable: Rule, put: Rule,
      index: seq<seq<string>>)

  /** A type in use. `target`: what `onePerMember` is counted per. */
  datatype Type = Type(
    fields: seq<Field>, links: map<string, seq<string>>, onePerMember: bool, target: Option<string>, editable: Rule,
      put: Rule,
    index: seq<seq<string>>)

  /** A type as a space stores it (JSON); older ones have no `links` or `put`. */
  datatype Stored = Stored(
    fields: seq<Field>, links: Option<map<string, seq<string>>>, onePerMember: bool, editable: Rule, put: Option<Rule>,
    index: seq<seq<string>>)

  /** Why a declaration is incompatible with a stored one. */
  datatype Problem =
    | Moved(field: string) | Retyped(field: string) | LinksChanged(field: string) | GroupingChanged
    | FirstLinkAdded(target: string)
    | EditableChanged | PutChanged

  datatype Refusal = Removed(name: string) | Changed(name: string, problem: Problem)

  const RESERVED := {"id", "type", "author", "device", "stamp", "edited", "futureStamp"}

  // --- declaring ---

  predicate OwnName(name: string) {
    |name| >= 3 && name[..3] == "hg/"
  }

  /** The first link field. */
  function FirstLink(fields: seq<Field>): (r: Option<string>)
    ensures r.None? <==> forall f :: f in fields ==> f.kind != Link
    ensures r.Some? ==> Field(r.value, Link) in fields
  {
    if fields == [] then None
    else if fields[0].kind == Link then Some(fields[0].name)
    else FirstLink(fields[1..])
  }

  function TargetOf(fields: seq<Field>, onePerMember: bool): Option<string> {
    if onePerMember then FirstLink(fields) else None
  }

  predicate HasField(fields: seq<Field>, name: string) {
    exists f | f in fields :: f.name == name
  }

  predicate LinksDeclared(fields: seq<Field>, links: map<string, seq<string>>, known: set<string>) {
    forall f | f in links :: Field(f, Link) in fields && forall target | target in links[f] :: target in known
  }

  predicate EditableDeclared(rule: Rule) {
    rule.ByPermission? ==> rule.permission != ""
  }

  predicate PutDeclared(rule: Rule) {
    rule != ByAuthor && (rule.ByPermission? ==> rule.permission != "")
  }

  predicate KeysDeclared(fields: seq<Field>, keys: seq<string>) {
    keys != [] && forall k | k in keys :: k == "stamp" || HasField(fields, k)
  }

  /** An index's keys without "stamp", which every index ends with. */
  function Plain(keys: seq<string>): (r: seq<string>)
    ensures forall k :: k in r <==> k in keys && k != "stamp"
    ensures "stamp" !in keys ==> r == keys
  {
    if keys == [] then []
    else (if keys[0] == "stamp" then [] else [keys[0]]) + Plain(keys[1..])
  }

  function PlainIndex(index: seq<seq<string>>): (r: seq<seq<string>>)
    ensures |r| == |index| && forall i :: 0 <= i < |index| ==> r[i] == Plain(index[i])
  {
    if index == [] then [] else [Plain(index[0])] + PlainIndex(index[1..])
  }

  /** A declaration checked, links pointing at types in `known`; None: INVALID_TYPE. */
  function Declare(name: string, d: Declaration, known: set<string>): Option<Type> {
    if OwnName(name) || (exists f | f in d.fields :: f.name in RESERVED) then None
    else if !LinksDeclared(d.fields, d.links, known) || !EditableDeclared(d.editable) || !PutDeclared(d.put) then None
    else if exists keys | keys in d.index :: !KeysDeclared(d.fields, keys) then None
    else Some(Type(d.fields, d.links, d.onePerMember, TargetOf(d.fields, d.onePerMember), d.editable, d.put,
      PlainIndex(d.index)))
  }

  /** What every declared type is. */
  ghost predicate Sound(t: Type, known: set<string>) {
    && DistinctNames(t.fields)
    && (forall f :: f in t.fields ==> f.name !in RESERVED)
    && LinksDeclared(t.fields, t.links, known)
    && t.target == TargetOf(t.fields, t.onePerMember)
    && EditableDeclared(t.editable) && PutDeclared(t.put)
    && forall keys, k :: keys in t.index && k in keys ==> k != "stamp" && HasField(t.fields, k)
  }

  lemma DeclaredIsSound(name: string, d: Declaration, known: set<string>)
    requires DistinctNames(d.fields) && Declare(name, d, known).Some?
    ensures !OwnName(name) && Sound(Declare(name, d, known).value, known)
  {
    var t := Declare(name, d, known).value;
    forall keys, k | keys in t.index && k in keys
      ensures k != "stamp" && HasField(t.fields, k)
    {
      var i :| 0 <= i < |t.index| && t.index[i] == keys;
      assert d.index[i] in d.index;
      assert KeysDeclared(d.fields, d.index[i]);
    }
  }

  /** Exactly what can be declared, and as what. */
  lemma DeclaredExactly(name: string, d: Declaration, known: set<string>)
    ensures Declare(name, d, known).Some? <==>
      && !("hg/" <= name)
      && (forall f :: f in d.fields ==>
           f.name !in {"id", "type", "author", "device", "stamp", "edited", "futureStamp"})
      && (forall f :: f in d.links ==> Field(f, Link) in d.fields && forall x :: x in d.links[f] ==> x in known)
      && d.editable != ByPermission("") && d.put != ByPermission("") && d.put != ByAuthor
      && (forall keys :: keys in d.index ==>
           keys != [] && forall k :: k in keys ==> k == "stamp" || exists f :: f in d.fields && f.name == k)
    ensures Declare(name, d, known).Some? ==>
      var t := Declare(name, d, known).value;
      && t.fields == d.fields && t.links == d.links && t.onePerMember == d.onePerMember
      && t.editable == d.editable && t.put == d.put && t.index == PlainIndex(d.index)
      && (t.target.Some? <==> d.onePerMember && exists f :: f in d.fields && f.kind == Link)
      && (t.target.Some? ==>
           exists i :: 0 <= i < |d.fields| && d.fields[i] == Field(t.target.value, Link) &&
             forall j :: 0 <= j < i ==> d.fields[j].kind != Link)
  {
    assert OwnName(name) <==> "hg/" <= name by {
      assert |name| >= 3 ==> name[..3] == [name[0], name[1], name[2]];
    }
    FirstLinkIs(d.fields);
  }

  lemma {:induction false} FirstLinkIs(fields: seq<Field>)
    ensures FirstLink(fields).Some? ==>
      exists i :: 0 <= i < |fields| && fields[i] == Field(FirstLink(fields).value, Link) &&
        forall j :: 0 <= j < i ==> fields[j].kind != Link
  {
    if fields != [] && fields[0].kind != Link {
      FirstLinkIs(fields[1..]);
      if FirstLink(fields).Some? {
        var i :| 0 <= i < |fields[1..]| && fields[1..][i] == Field(FirstLink(fields).value, Link) &&
          forall j :: 0 <= j < i ==> fields[1..][j].kind != Link;
        assert fields[i + 1] == fields[1..][i];
        assert forall j :: 1 <= j < i + 1 ==> fields[j] == fields[1..][j - 1];
      }
    }
  }

  // --- the stored form ---

  function Describe(t: Type): Stored {
    Stored(t.fields, Some(t.links), t.onePerMember, t.editable, Some(t.put), t.index)
  }

  function LinksOf(s: Stored): map<string, seq<string>> {
    if s.links.None? then map[] else s.links.value
  }

  function PutOf(s: Stored): Rule {
    if s.put.None? then ByMembers else s.put.value
  }

  function AsDeclared(s: Stored): Declaration {
    Declaration(s.fields, LinksOf(s), s.onePerMember, s.editable, PutOf(s), s.index)
  }

  /** A type stored without links or put, as older ones are, has no link targets and is put by members. */
  lemma OlderDefaults(s: Stored)
    ensures AsDeclared(s.(links := None, put := None)) ==
            AsDeclared(s.(links := Some(map[]), put := Some(ByMembers)))
    ensures s.links.Some? && s.put.Some? ==>
      AsDeclared(s) == Declaration(s.fields, s.links.value, s.onePerMember, s.editable, s.put.value, s.index)
  {
  }

  /**
   A stored type read back is the type, unless one of its indexes was declared as
   ["stamp"]: it stays with no keys, and is refused.
   */
  lemma StoredReadsBack(name: string, t: Type, known: set<string>)
    requires Sound(t, known) && !OwnName(name)
    ensures Declare(name, AsDeclared(Describe(t)), known) == if [] in t.index then None else Some(t)
  {
    var d := AsDeclared(Describe(t));
    if [] in t.index {
      assert !KeysDeclared(d.fields, []);
    } else {
      forall keys | keys in d.index
        ensures KeysDeclared(d.fields, keys) && Plain(keys) == keys
      {
        if "stamp" in keys {
          assert false;
        }
      }
      assert forall i :: 0 <= i < |d.index| ==> d.index[i] in d.index;
      assert PlainIndex(d.index) == t.index;
    }
  }

  /** A declaration that is accepted, and refused when read back. */
  lemma StampIndexIsRefused()
    ensures
      var d := Declaration([Field("title", String)], map[], false, ByAuthor, ByMembers, [["stamp"]]);
      var t := Declare("post", d, {"post"});
      t.Some? && Declare("post", AsDeclared(Describe(t.value)), {"post"}).None?
  {
    var d := Declaration([Field("title", String)], map[], false, ByAuthor, ByMembers, [["stamp"]]);
    assert "post"[..3][0] != "hg/"[0] && !OwnName("post");
    assert "title"[0] != "stamp"[0];
    assert "title" !in RESERVED;
    assert forall keys :: keys in d.index ==> keys == ["stamp"];
    assert KeysDeclared(d.fields, ["stamp"]);
    var t := Declare("post", d, {"post"}).value;
    assert t.index[0] == Plain(["stamp"]) == [];
    StoredReadsBack("post", t, {"post"});
  }

  // --- compatibility of one type ---

  function Targets(links: map<string, seq<string>>, field: string): Option<seq<string>> {
    if field in links then Some(links[field]) else None
  }

  /** What the compatibility check is to guarantee of one type: only growth. */
  ghost predicate Grows(was: Stored, now: Type) {
    && was.fields <= now.fields
    && (forall f :: f in was.fields && f.kind == Link ==>
         (f.name in LinksOf(was) <==> f.name in now.links) &&
         (f.name in now.links ==> LinksOf(was)[f.name] == now.links[f.name]))
    && was.onePerMember == now.onePerMember
    && TargetOf(was.fields, was.onePerMember) == now.target
    && was.editable == now.editable && PutOf(was) == now.put
  }

  function FieldProblem(was: Stored, now: Type, i: nat): Option<Problem>
    requires i < |was.fields|
  {
    var f := was.fields[i];
    if i >= |now.fields| || now.fields[i].name != f.name then Some(Moved(f.name))
    else if now.fields[i].kind != f.kind then Some(Retyped(f.name))
    else if f.kind == Link && Targets(LinksOf(was), f.name) != Targets(now.links, f.name) then
      Some(LinksChanged(f.name))
    else None
  }

  function RuleProblem(was: Stored, now: Type): Option<Problem> {
    if was.onePerMember != now.onePerMember then Some(GroupingChanged)
    else if now.onePerMember && now.target.Some? && !(exists f | f in was.fields :: f.kind == Link) then
      Some(FirstLinkAdded(now.target.value))
    else if was.editable != now.editable then Some(EditableChanged)
    else if PutOf(was) != now.put then Some(PutChanged)
    else None
  }

  /** The first thing wrong, fields from `i` on first. */
  function ProblemFrom(was: Stored, now: Type, i: nat): Option<Problem>
    requires i <= |was.fields|
    decreases |was.fields| - i
  {
    if i == |was.fields| then RuleProblem(was, now)
    else if FieldProblem(was, now, i).Some? then FieldProblem(was, now, i)
    else ProblemFrom(was, now, i + 1)
  }

  method CheckType(was: Stored, now: Type) returns (r: Option<Problem>)
    ensures r == ProblemFrom(was, now, 0)
  {
    for i := 0 to |was.fields|
      invariant ProblemFrom(was, now, 0) == ProblemFrom(was, now, i)
    {
      if FieldProblem(was, now, i).Some? {
        return FieldProblem(was, now, i);
      }
    }
    return RuleProblem(was, now);
  }

  lemma {:induction false} NoProblemFrom(was: Stored, now: Type, i: nat)
    requires i <= |was.fields|
    ensures ProblemFrom(was, now, i).None? <==>
      (forall j :: i <= j < |was.fields| ==> FieldProblem(was, now, j).None?) && RuleProblem(was, now).None?
    decreases |was.fields| - i
  {
    if i < |was.fields| {
      NoProblemFrom(was, now, i + 1);
    }
  }

  /** A field list that starts with another has the other's first link, if that has one. */
  lemma {:induction false} FirstLinkStays(part: seq<Field>, whole: seq<Field>)
    requires part <= whole && FirstLink(part).Some?
    ensures FirstLink(whole) == FirstLink(part)
  {
    if part[0].kind != Link {
      FirstLinkStays(part[1..], whole[1..]);
    }
  }

  lemma AcceptedGrows(was: Stored, now: Type)
    requires now.target == TargetOf(now.fields, now.onePerMember) && ProblemFrom(was, now, 0).None?
    ensures Grows(was, now)
  {
    NoProblemFrom(was, now, 0);
    forall j | 0 <= j < |was.fields|
      ensures j < |now.fields| && now.fields[j] == was.fields[j]
      ensures was.fields[j].kind == Link ==>
          Targets(LinksOf(was), was.fields[j].name) == Targets(now.links, was.fields[j].name)
    {
      assert FieldProblem(was, now, j).None?;
    }
    var n := |was.fields|;
    assert n <= |now.fields| by {
      if n > 0 {
        assert FieldProblem(was, now, n - 1).None?;
      }
    }
    if FirstLink(was.fields).Some? {
      FirstLinkStays(was.fields, now.fields);
    }
  }

  lemma GrowthIsAccepted(was: Stored, now: Type)
    requires now.target == TargetOf(now.fields, now.onePerMember) && Grows(was, now)
    ensures ProblemFrom(was, now, 0).None?
  {
    NoProblemFrom(was, now, 0);
    assert forall j :: 0 <= j < |was.fields| ==> was.fields[j] in was.fields;
  }

  /** The check accepts growth, and nothing else. */
  lemma AcceptedIffGrows(was: Stored, now: Type)
    requires now.target == TargetOf(now.fields, now.onePerMember)
    ensures ProblemFrom(was, now, 0).None? <==> Grows(was, now)
  {
    if ProblemFrom(was, now, 0).None? {
      AcceptedGrows(was, now);
    }
    if Grows(was, now) {
      GrowthIsAccepted(was, now);
    }
  }

  lemma GrowsTrans(was: Stored, mid: Type, now: Type)
    requires mid.target == TargetOf(mid.fields, mid.onePerMember) && Grows(was, mid) && Grows(Describe(mid), now)
    ensures Grows(was, now)
  {
    forall f | f in was.fields && f.kind == Link
      ensures (f.name in LinksOf(was) <==> f.name in now.links) &&
              (f.name in now.links ==> LinksOf(was)[f.name] == now.links[f.name])
    {
      assert f in mid.fields;
    }
  }

  /**
   Every record written under the old type reads the same under the new one, null in
   the fields added, grouped by the same field.
   */
  lemma GrownTypeReads(was: Stored, now: Type, values: Values)
    requires Grows(was, now) && DistinctNames(now.fields) && Fits(was.fields, values, 0)
    ensures now.target == TargetOf(was.fields, was.onePerMember)
    ensures EncodeOf(was.fields, values, None).Some?
    ensures
      var r := EncodeOf(was.fields, values, None).value;
      var read := DecodeOf(now.fields, r.fields, r.links);
      && read.Some? && read.value.Keys == Names(now.fields)
      && forall i :: 0 <= i < |now.fields| ==>
           now.fields[i].name in Names(now.fields) &&
           read.value[now.fields[i].name] == if i < |was.fields| then Given(values, now.fields[i].name) else None
  {
    NewerReadsOlder(was.fields, now.fields, values);
  }

  // --- a set of types ---

  function Own(builtin: map<string, Type>, types: map<string, Type>): map<string, Type> {
    map n | n in types && n !in builtin :: types[n]
  }

  ghost predicate ValidBuiltin(builtin: map<string, Type>) {
    forall n :: n in builtin ==>
      OwnName(n) && DistinctNames(builtin[n].fields) && builtin[n].target ==
      TargetOf(builtin[n].fields, builtin[n].onePerMember)
  }

  ghost predicate ValidTypes(builtin: map<string, Type>, types: map<string, Type>) {
    && ValidBuiltin(builtin)
    && (forall n :: n in builtin ==> n in types && types[n] == builtin[n])
    && forall n :: n in types && n !in builtin ==> !OwnName(n) && Sound(types[n], Own(builtin, types).Keys)
  }

  ghost predicate DistinctDeclared(declarations: map<string, Declaration>) {
    forall n :: n in declarations ==> DistinctNames(declarations[n].fields)
  }

  ghost predicate DistinctStored(stored: map<string, Stored>) {
    forall n :: n in stored ==> DistinctNames(stored[n].fields)
  }

  /** Every one of them passes `Declare`. */
  predicate AllDeclare(declarations: map<string, Declaration>) {
    forall n | n in declarations :: Declare(n, declarations[n], declarations.Keys).Some?
  }

  function Declared(declarations: map<string, Declaration>): map<string, Type>
    requires AllDeclare(declarations)
  {
    map n | n in declarations :: Declare(n, declarations[n], declarations.Keys).value
  }

  function DescribeAll(own: map<string, Type>): map<string, Stored> {
    map n | n in own :: Describe(own[n])
  }

  function AllAsDeclared(stored: map<string, Stored>): map<string, Declaration> {
    map n | n in stored :: AsDeclared(stored[n])
  }

  /** `types` only adds to `stored`. */
  ghost predicate Compatible(stored: map<string, Stored>, types: map<string, Type>) {
    forall n :: n in stored ==> n in types && Grows(stored[n], types[n])
  }

  /** The part of a stored type that one with `n` fields knows. */
  function Cut(s: Stored, n: nat): Stored {
    s.(fields := if n < |s.fields| then s.fields[..n] else s.fields)
  }

  /** They agree on what both have. */
  ghost predicate Agrees(own: map<string, Type>, stored: map<string, Stored>) {
    forall n :: n in stored && n in own ==> Grows(Cut(stored[n], |own[n].fields|), own[n])
  }

  /** A space's types with an app's added. */
  function OverOf(own: map<string, Type>, stored: map<string, Stored>): map<string, Stored> {
    map n | n in own.Keys + stored.Keys ::
      if n in own && (n in stored ==> |own[n].fields| >= |stored[n].fields|) then Describe(own[n]) else stored[n]
  }

  /** A refusal says what is wrong. */
  predicate Refuses(stored: map<string, Stored>, types: map<string, Type>, why: Refusal) {
    && why.name in stored
    && match why
       case Removed(name) => name !in types
       case Changed(name, problem) => name in types && ProblemFrom(stored[name], types[name], 0) == Some(problem)
  }

  class Types {
    const builtin: map<string, Type>
    var types: map<string, Type>

    ghost predicate Valid()
      reads this
    {
      ValidTypes(builtin, types)
    }

    constructor (builtin: map<string, Type>, own: map<string, Type>)
      ensures this.builtin == builtin && types == own + builtin
    {
      this.builtin, types := builtin, own + builtin;
    }

    // new Types(declarations); None: a declaration is refused.
    static method New(builtin: map<string, Type>, declarations: map<string, Declaration>) returns (r: Option<Types>)
      requires ValidBuiltin(builtin) && DistinctDeclared(declarations)
      ensures r.Some? <==> AllDeclare(declarations)
      ensures r.Some? ==>
        && fresh(r.value) && r.value.Valid() && r.value.builtin == builtin
        && AllDeclare(declarations) && r.value.types == Declared(declarations) + builtin
        && Own(builtin, r.value.types) == Declared(declarations)
    {
      hide Declare, Sound;
      var own: map<string, Type> := map[];
      var todo := declarations.Keys;
      while todo != {}
        invariant todo <= declarations.Keys
        invariant own.Keys == declarations.Keys - todo
        invariant forall n :: n in own ==>
            n in declarations && Declare(n, declarations[n], declarations.Keys) ==
            Some(own[n])
      {
        var n :| n in todo;
        var t := Declare(n, declarations[n], declarations.Keys);
        if t.None? {
          return None;
        }
        own := own[n := t.value];
        todo := todo - {n};
      }
      assert AllDeclare(declarations);
      assert own == Declared(declarations);
      DeclaredAreValid(builtin, declarations);
      var types := new Types(builtin, own);
      return Some(types);
    }

    // Types.from(stored): a space's stored types in use.
    static method From(builtin: map<string, Type>, stored: map<string, Stored>) returns (r: Option<Types>)
      requires ValidBuiltin(builtin) && DistinctStored(stored)
      ensures r.Some? <==> AllDeclare(AllAsDeclared(stored))
      ensures r.Some? ==>
        && fresh(r.value) && r.value.Valid() && r.value.builtin == builtin
        && AllDeclare(AllAsDeclared(stored)) && Own(builtin, r.value.types) == Declared(AllAsDeclared(stored))
    {
      var declarations := DeclarationsOf(stored);
      r := New(builtin, declarations);
    }

    static method DeclarationsOf(stored: map<string, Stored>) returns (declarations: map<string, Declaration>)
      ensures declarations == AllAsDeclared(stored)
    {
      declarations := map[];
      var todo := stored.Keys;
      while todo != {}
        invariant todo <= stored.Keys
        invariant declarations.Keys == stored.Keys - todo
        invariant forall n :: n in declarations ==> n in stored && declarations[n] == AsDeclared(stored[n])
      {
        var n :| n in todo;
        declarations := declarations[n := AsDeclared(stored[n])];
        todo := todo - {n};
      }
    }

    method DescribeTypes() returns (out: map<string, Stored>)
      requires Valid()
      ensures out == DescribeAll(Own(builtin, types))
    {
      hide ValidTypes;
      out := map[];
      var todo := types.Keys;
      while todo != {}
        invariant todo <= types.Keys
        invariant forall n :: n in out <==> n in types && n !in builtin && n !in todo
        invariant forall n :: n in out ==> out[n] == Describe(types[n])
      {
        var n :| n in todo;
        if n !in builtin {
          out := out[n := Describe(types[n])];
        }
        todo := todo - {n};
      }
    }

    method CheckCompatible(stored: map<string, Stored>) returns (why: Option<Refusal>)
      requires Valid()
      ensures why.None? <==> Compatible(stored, types)
      ensures why.Some? ==> Refuses(stored, types, why.value)
    {
      hide Grows, Own, Sound;
      var todo := stored.Keys;
      while todo != {}
        invariant todo <= stored.Keys
        invariant forall n :: n in stored && n !in todo ==> n in types && Grows(stored[n], types[n])
      {
        var n :| n in todo;
        if n !in types {
          return Some(Removed(n));
        }
        TargetKnown(builtin, types, n);
        AcceptedIffGrows(stored[n], types[n]);
        var problem := CheckType(stored[n], types[n]);
        if problem.Some? {
          return Some(Changed(n, problem.value));
        }
        todo := todo - {n};
      }
      return None;
    }

    method Conflict(stored: map<string, Stored>) returns (why: Option<Refusal>)
      requires Valid()
      ensures why.None? <==> Agrees(Own(builtin, types), stored)
    {
      hide Grows, Sound, ValidTypes;
      var common: map<string, Stored> := map[];
      var todo := stored.Keys;
      while todo != {}
        invariant todo <= stored.Keys
        invariant forall n :: n in common <==> n in stored && n in types && n !in builtin && n !in todo
        invariant forall n :: n in common ==> common[n] == Cut(stored[n], |types[n].fields|)
      {
        var n :| n in todo;
        if n in types && n !in builtin {
          common := common[n := Cut(stored[n], |types[n].fields|)];
        }
        todo := todo - {n};
      }
      why := CheckCompatible(common);
    }

    method Over(stored: map<string, Stored>) returns (out: map<string, Stored>)
      requires Valid()
      ensures out == OverOf(Own(builtin, types), stored)
    {
      hide ValidTypes, Own, Describe, OverOf;
      var own := DescribeTypes();
      out := stored;
      var todo := own.Keys;
      while todo != {}
        invariant todo <= own.Keys
        invariant out.Keys == stored.Keys + (own.Keys - todo)
        invariant forall n :: n in stored && (n !in own || n in todo) ==> out[n] == stored[n]
        invariant forall n :: n in own && n !in todo ==> out[n] == Longer(own[n], stored, n)
      {
        var n :| n in todo;
        if n !in out || |own[n].fields| >= |out[n].fields| {
          out := out[n := own[n]];
        }
        todo := todo - {n};
      }
      OverIs(Own(builtin, types), stored, out);
    }
  }

  function Longer(s: Stored, stored: map<string, Stored>, n: string): Stored {
    if n in stored && |s.fields| < |stored[n].fields| then stored[n] else s
  }

  lemma OverIs(own: map<string, Type>, stored: map<string, Stored>, out: map<string, Stored>)
    requires out.Keys == stored.Keys + own.Keys
    requires forall n :: n in stored && n !in own ==> out[n] == stored[n]
    requires forall n :: n in own ==> out[n] == Longer(Describe(own[n]), stored, n)
    ensures out == OverOf(own, stored)
  {
  }

  lemma TargetKnown(builtin: map<string, Type>, types: map<string, Type>, n: string)
    requires ValidTypes(builtin, types) && n in types
    ensures types[n].target == TargetOf(types[n].fields, types[n].onePerMember) && DistinctNames(types[n].fields)
  {
  }

  lemma DeclaredAreValid(builtin: map<string, Type>, declarations: map<string, Declaration>)
    requires ValidBuiltin(builtin) && DistinctDeclared(declarations) && AllDeclare(declarations)
    ensures ValidTypes(builtin, Declared(declarations) + builtin)
    ensures Own(builtin, Declared(declarations) + builtin) == Declared(declarations)
  {
    hide Sound, Declare;
    var own := Declared(declarations);
    forall n | n in own
      ensures n !in builtin && !OwnName(n) && Sound(own[n], declarations.Keys)
    {
      DeclaredIsSound(n, declarations[n], declarations.Keys);
    }
    assert own.Keys == declarations.Keys;
    assert Own(builtin, own + builtin) == own;
  }

  // --- what holds of them ---

  /**
   A space's types in use and stored again are the same, and reading them back works
   unless an index has no keys but "stamp".
   */
  lemma DescribedReadsBack(builtin: map<string, Type>, types: map<string, Type>)
    requires ValidTypes(builtin, types)
    ensures
      var own := Own(builtin, types);
      var again := AllAsDeclared(DescribeAll(own));
      && (AllDeclare(again) <==> forall n :: n in own ==> [] !in own[n].index)
      && (AllDeclare(again) ==> Declared(again) == own)
  {
    hide Declare, Sound;
    var own := Own(builtin, types);
    var again := AllAsDeclared(DescribeAll(own));
    assert again.Keys == own.Keys;
    forall n | n in own
      ensures Declare(n, again[n], again.Keys) == if [] in own[n].index then None else Some(own[n])
    {
      StoredReadsBack(n, own[n], own.Keys);
    }
  }

  lemma CompatibleIsReflexive(builtin: map<string, Type>, types: map<string, Type>)
    requires ValidTypes(builtin, types)
    ensures Compatible(DescribeAll(Own(builtin, types)), types)
  {
    hide Grows;
    forall n | n in Own(builtin, types)
      ensures Grows(Describe(types[n]), types[n])
    {
      TargetKnown(builtin, types, n);
      TypeGrowsItself(types[n]);
    }
  }

  lemma CompatibleIsTransitive(builtin: map<string, Type>, stored: map<string, Stored>, mid: map<string, Type>,
          now: map<string, Type>)
    requires ValidTypes(builtin, mid) && ValidTypes(builtin, now)
    requires Compatible(stored, mid) && Compatible(DescribeAll(Own(builtin, mid)), now)
    ensures Compatible(stored, now)
  {
    hide Grows, Sound;
    forall n | n in stored
      ensures n in now && Grows(stored[n], now[n])
    {
      if n !in builtin {
        assert n in DescribeAll(Own(builtin, mid));
        TargetKnown(builtin, mid, n);
        GrowsTrans(stored[n], mid[n], now[n]);
      }
    }
  }

  /** Every record of every type of the space, written before, reads the same after. */
  lemma CompatibleKeepsRecords(builtin: map<string, Type>, stored: map<string, Stored>, types: map<string, Type>,
          n: string, values: Values)
    requires ValidTypes(builtin, types) && Compatible(stored, types)
    requires n in stored && Fits(stored[n].fields, values, 0)
    ensures types[n].target == TargetOf(stored[n].fields, stored[n].onePerMember)
    ensures
      var r := EncodeOf(stored[n].fields, values, None);
      r.Some? &&
      var read := DecodeOf(types[n].fields, r.value.fields, r.value.links);
      && read.Some? && read.value.Keys == Names(types[n].fields)
      && forall f :: f in read.value ==> read.value[f] == if f in Names(stored[n].fields) then Given(values, f)
        else None
  {
    hide EncodeOf, DecodeOf, Fits, Sound;
    TargetKnown(builtin, types, n);
    GrownTypeReads(stored[n], types[n], values);
    var was, now := stored[n].fields, types[n].fields;
    var r := EncodeOf(was, values, None).value;
    var read := DecodeOf(now, r.fields, r.links).value;
    forall f | f in read
      ensures read[f] == if f in Names(was) then Given(values, f) else None
    {
      var i :| 0 <= i < |now| && now[i].name == f;
      NamesOfPrefix(was, now, i);
    }
  }

  lemma NamesOfPrefix(part: seq<Field>, whole: seq<Field>, i: nat)
    requires part <= whole && DistinctNames(whole) && i < |whole|
    ensures whole[i].name in Names(part) <==> i < |part|
  {
    if whole[i].name in Names(part) {
      var j :| 0 <= j < |part| && part[j].name == whole[i].name;
      assert whole[j].name == whole[i].name;
    }
  }

  /** A stored type as it is used once read back, whatever its indexes. */
  function InUse(s: Stored): Type {
    Type(s.fields, LinksOf(s), s.onePerMember, TargetOf(s.fields, s.onePerMember), s.editable, PutOf(s), s.index)
  }

  /** `over` takes this type from the app. */
  predicate TakesOwn(own: map<string, Type>, stored: map<string, Stored>, n: string) {
    n in own && (n in stored ==> |own[n].fields| >= |stored[n].fields|)
  }

  /**
   What `over` gives, when `conflict` accepts: a growth of the space's types, no
   field list shortened, with which the app still agrees, and done again the same.
   Read back it is in use, if and only if no type taken from the app has an index
   without keys; and then it is a compatible growth of the space's types.
   */
  lemma OverGrows(builtin: map<string, Type>, types: map<string, Type>, stored: map<string, Stored>)
    requires ValidTypes(builtin, types) && Agrees(Own(builtin, types), stored)
    ensures
      var own, over := Own(builtin, types), OverOf(Own(builtin, types), stored);
      && (forall n :: n in stored ==>
        n in over && stored[n].fields <= over[n].fields &&
        Grows(stored[n], InUse(over[n])))
      && Agrees(own, over)
      && OverOf(own, over) == over
      && (AllDeclare(AllAsDeclared(stored)) ==>
           (AllDeclare(AllAsDeclared(over)) <==> forall n :: TakesOwn(own, stored, n) ==> [] !in own[n].index))
      && (AllDeclare(AllAsDeclared(over)) ==> Compatible(stored, Declared(AllAsDeclared(over))))
  {
    hide Declare, Grows, Sound, OverOf, ValidTypes, Agrees, TakesOwn, InUse;
    var own, over := Own(builtin, types), OverOf(Own(builtin, types), stored);
    OverAgain(own, stored);
    forall n | n in over
      ensures n in stored ==> stored[n].fields <= over[n].fields && Grows(stored[n], InUse(over[n]))
      ensures n in own ==> Grows(Cut(over[n], |own[n].fields|), own[n])
    {
      OverType(builtin, types, stored, n);
    }
    AgreesAt(own, over);
    var declarations := AllAsDeclared(over);
    assert declarations.Keys == over.Keys;
    if AllDeclare(AllAsDeclared(stored)) {
      OverReadsBack(builtin, types, stored);
    }
    forall n | n in stored && Declare(n, declarations[n], declarations.Keys).Some?
      ensures Grows(stored[n], Declare(n, declarations[n], declarations.Keys).value)
    {
      GrowsAsDeclared(stored[n], n, over[n], over.Keys);
    }
  }

  lemma AgreesAt(own: map<string, Type>, stored: map<string, Stored>)
    requires forall n :: n in stored && n in own ==> Grows(Cut(stored[n], |own[n].fields|), own[n])
    ensures Agrees(own, stored)
  {
  }

  /** What is declared from a stored type grows as it does. */
  lemma GrowsAsDeclared(was: Stored, name: string, s: Stored, known: set<string>)
    requires Grows(was, InUse(s)) && Declare(name, AsDeclared(s), known).Some?
    ensures Grows(was, Declare(name, AsDeclared(s), known).value)
  {
  }

  lemma OverReadsBack(builtin: map<string, Type>, types: map<string, Type>, stored: map<string, Stored>)
    requires ValidTypes(builtin, types) && AllDeclare(AllAsDeclared(stored))
    ensures
      var own, over := Own(builtin, types), OverOf(Own(builtin, types), stored);
      AllDeclare(AllAsDeclared(over)) <==> forall n :: TakesOwn(own, stored, n) ==> [] !in own[n].index
  {
    hide Declare, Sound, OverOf;
    var own, over := Own(builtin, types), OverOf(Own(builtin, types), stored);
    OverAgain(own, stored);
    var declarations := AllAsDeclared(over);
    assert declarations.Keys == over.Keys;
    forall n | n in over
      ensures Declare(n, declarations[n], declarations.Keys).Some? <==>
          (TakesOwn(own, stored, n) ==> [] !in own[n].index)
    {
      OverTypeReadsBack(builtin, types, stored, n);
    }
    TakenAreOver(own, stored);
  }

  lemma TakenAreOver(own: map<string, Type>, stored: map<string, Stored>)
    ensures forall n :: TakesOwn(own, stored, n) ==> n in OverOf(own, stored)
  {
  }

  lemma OverTypeReadsBack(builtin: map<string, Type>, types: map<string, Type>, stored: map<string, Stored>, n: string)
    requires ValidTypes(builtin, types) && AllDeclare(AllAsDeclared(stored))
    requires n in OverOf(Own(builtin, types), stored)
    ensures
      var own, over := Own(builtin, types), OverOf(Own(builtin, types), stored);
      Declare(n, AsDeclared(over[n]), over.Keys).Some? <==> (TakesOwn(own, stored, n) ==> [] !in own[n].index)
  {
    hide Declare, Sound, Plain, PlainIndex;
    var own, over := Own(builtin, types), OverOf(Own(builtin, types), stored);
    assert own.Keys <= over.Keys && stored.Keys <= over.Keys;
    if TakesOwn(own, stored, n) {
      SoundInMore(own[n], own.Keys, over.Keys);
      StoredReadsBack(n, own[n], over.Keys);
    } else {
      assert AllAsDeclared(stored)[n] == AsDeclared(stored[n]) && AllAsDeclared(stored).Keys == stored.Keys;
      MoreKnown(n, AsDeclared(stored[n]), stored.Keys, over.Keys);
    }
  }

  lemma OverAgain(own: map<string, Type>, stored: map<string, Stored>)
    ensures OverOf(own, stored).Keys == own.Keys + stored.Keys
    ensures OverOf(own, OverOf(own, stored)) == OverOf(own, stored)
  {
  }

  lemma MoreKnown(name: string, d: Declaration, known: set<string>, more: set<string>)
    requires Declare(name, d, known).Some? && known <= more
    ensures Declare(name, d, more) == Declare(name, d, known)
  {
  }

  lemma SoundInMore(t: Type, known: set<string>, more: set<string>)
    requires Sound(t, known) && known <= more
    ensures Sound(t, more)
  {
  }

  lemma TypeGrowsItself(t: Type)
    requires t.target == TargetOf(t.fields, t.onePerMember)
    ensures Grows(Describe(t), t) && Cut(Describe(t), |t.fields|) == Describe(t)
  {
  }

  lemma OverType(builtin: map<string, Type>, types: map<string, Type>, stored: map<string, Stored>, n: string)
    requires ValidTypes(builtin, types) && Agrees(Own(builtin, types), stored)
    requires n in OverOf(Own(builtin, types), stored)
    ensures
      var own, over := Own(builtin, types), OverOf(Own(builtin, types), stored);
      && (n in stored ==> stored[n].fields <= over[n].fields && Grows(stored[n], InUse(over[n])))
      && (n in own ==> Grows(Cut(over[n], |own[n].fields|), own[n]))
  {
    hide Sound;
    var own := Own(builtin, types);
    if TakesOwn(own, stored, n) {
      TargetKnown(builtin, types, n);
      TypeGrowsItself(own[n]);
      if n in stored {
        assert Cut(stored[n], |own[n].fields|) == stored[n];
      }
    }
  }

  /**
   Where both have a type, an app that agrees groups one per member by the
   space's field exactly when it knows a link field or the space has none: an
   older app that knows no link of it yet groups them all as one.
   */
  lemma AgreeingGroupsAlike(own: Type, stored: Stored)
    requires own.target == TargetOf(own.fields, own.onePerMember) && Grows(Cut(stored, |own.fields|), own)
    ensures own.target == TargetOf(stored.fields, stored.onePerMember) <==>
      own.onePerMember ==> FirstLink(own.fields).Some? || FirstLink(stored.fields).None?
  {
    var part := Cut(stored, |own.fields|).fields;
    if FirstLink(part).Some? {
      FirstLinkStays(part, stored.fields);
      FirstLinkStays(part, own.fields);
    }
  }

  lemma AgreeingMayGroupApart()
    ensures exists own: Type, stored: Stored ::
      && own.target == TargetOf(own.fields, own.onePerMember) && Grows(Cut(stored, |own.fields|), own)
      && own.target != TargetOf(stored.fields, stored.onePerMember)
  {
    var title, on := Field("title", String), Field("on", Link);
    var own := Type([title], map[], true, None, ByAuthor, ByMembers, []);
    var stored := Stored([title, on], Some(map[]), true, ByAuthor, Some(ByMembers), []);
    assert FirstLink([title]).None?;
    assert Field(FirstLink([title, on]).value, Link) in [title, on] by {
      assert on in [title, on];
    }
    assert Cut(stored, 1).fields == [title];
    assert Grows(Cut(stored, |own.fields|), own);
  }
}
