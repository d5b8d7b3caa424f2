/** The skill controller: listing, filtering by category, lookup, create,
    update and delete over the Skill collection. The pure functions give
    each handler's reply and the collection afterwards; `SkillStore` runs the
    handlers step by step on its own state and is proved to agree with them. */
module SkillController {
  import opened Js
  import opened Table
  import opened Ordering
  import opened SkillSchema

  /** A stored skill: its paths plus the `_id` and the `timestamps` pair. */
  datatype Skill = Skill(id: Id, fields: SkillFields, createdAt: int, updatedAt: int)

  function SkillId(s: Skill): Id { s.id }

  /** What holds of the collection between requests. */
  predicate StoreInvariant(t: seq<Skill>, nextId: Id) {
    && DistinctIds(t, SkillId)
    && (forall i :: 0 <= i < |t| ==> t[i].id < nextId && Conforms(t[i].fields))
  }

  // ------------------------------------------------------------------ listing

  /** Position of a category in the alphabetical order of its name. */
  function CategoryRank(c: Category): int {
    match c
    case Backend => 0
    case Database => 1
    case Frontend => 2
    case Other => 3
    case Tools => 4
  }

  /** Sorting on the rank is sorting on the stored category string. */
  lemma CategoryRankIsNameOrder(a: Category, b: Category)
    ensures CategoryRank(a) < CategoryRank(b) <==> StringLess(CategoryName(a), CategoryName(b))
  {
    if a == b {
      StringLessIrreflexive(CategoryName(a));
    } else {
      var x, y := CategoryName(a), CategoryName(b);
      assert x[0] != y[0];
    }
  }

  /** `sort({ category: 1, order: 1 })`. */
  function ListingKey(s: Skill): Key { Key(CategoryRank(s.fields.category), s.fields.order) }

  /** `getSkills`: every stored skill, by category, then by order. */
  function ListSkills(t: seq<Skill>): (r: seq<Skill>)
    ensures multiset(r) == multiset(t)
    ensures forall i, j :: 0 <= i < j < |r| ==>
      CategoryRank(r[i].fields.category) < CategoryRank(r[j].fields.category)
      || (r[i].fields.category == r[j].fields.category && r[i].fields.order <= r[j].fields.order)
  {
    var r := SortBy(t, ListingKey);
    assert forall i, j :: 0 <= i < j < |r| ==> KeyLe(ListingKey(r[i]), ListingKey(r[j]));
    r
  }

  /** The skills whose category string equals `name`, in collection order. */
  function OfCategory(t: seq<Skill>, name: string): (r: seq<Skill>)
    ensures forall x :: x in r <==> x in t && CategoryName(x.fields.category) == name
  {
    if t == [] then []
    else
      assert t == [t[0]] + t[1..];
      (if CategoryName(t[0].fields.category) == name then [t[0]] else []) + OfCategory(t[1..], name)
  }

  /** `sort({ order: 1 })`. */
  function OrderKey(s: Skill): Key { Key(s.fields.order, 0) }

  /** `getSkillsByCategory`: the skills of that category, by order. */
  function ListByCategory(t: seq<Skill>, name: string): (r: seq<Skill>)
    ensures multiset(r) == multiset(OfCategory(t, name))
    ensures forall i, j :: 0 <= i < j < |r| ==> r[i].fields.order <= r[j].fields.order
  {
    var r := SortBy(OfCategory(t, name), OrderKey);
    assert forall i, j :: 0 <= i < j < |r| ==> KeyLe(OrderKey(r[i]), OrderKey(r[j]));
    r
  }

  /** The category listing holds exactly the stored skills of that category. */
  lemma ListByCategoryMembers(t: seq<Skill>, name: string, x: Skill)
    ensures x in ListByCategory(t, name) <==> x in t && CategoryName(x.fields.category) == name
  {
    var r := ListByCategory(t, name);
    assert x in r <==> x in multiset(r);
    assert x in OfCategory(t, name) <==> x in multiset(OfCategory(t, name));
  }

  // ------------------------------------------------------------------ handlers

  type SkillReply = Reply<Skill, seq<Violation>>

  /** `getSkill`. */
  function GetSkill(t: seq<Skill>, id: Id): SkillReply {
    match Find(t, id, SkillId)
    case None => NotFound
    case Some(s) => Ok(s)
  }

  /** What createSkill hands to `Skill.create`: `proficiency || 50`, `order || 0`. */
  function CreateInput(body: SkillInput): SkillInput {
    body.(
      proficiency := Some(if body.proficiency.None? || body.proficiency.value == 0 then 50 else body.proficiency.value),
      order := Some(if body.order.None? || body.order.value == 0 then 0 else body.order.value))
  }

  /** `createSkill`: the reply, and the collection afterwards. */
  function CreateSkill(t: seq<Skill>, id: Id, body: SkillInput, now: int): (SkillReply, seq<Skill>) {
    match Build(CreateInput(body))
    case Passed(f) => var s := Skill(id, f, now, now); (Created(s), t + [s])
    case Failed(v) => (Invalid(v), t)
  }

  /** `updateSkill`: 404 for an unknown id, otherwise the body's paths are
      set and validated; a violation is a 400 and nothing is written. */
  function UpdateSkill(t: seq<Skill>, id: Id, body: SkillInput, now: int): (SkillReply, seq<Skill>) {
    match Find(t, id, SkillId)
    case None => (NotFound, t)
    case Some(s) =>
      match Update(s.fields, body)
      case Failed(v) => (Invalid(v), t)
      case Passed(f) => var s' := s.(fields := f, updatedAt := now); (Ok(s'), Replace(t, id, s', SkillId))
  }

  /** `deleteSkill`. */
  function DeleteSkill(t: seq<Skill>, id: Id): (SkillReply, seq<Skill>) {
    match Find(t, id, SkillId)
    case None => (NotFound, t)
    case Some(_) => (Deleted, Remove(t, id, SkillId))
  }

  // ------------------------------------------------------------------ properties

  /** A created skill stores proficiency 50 whenever the body's value is
      falsy, 0 included, and order 0 whenever that is falsy; so a created
      skill never has proficiency 0. */
  lemma CreateDefaults(t: seq<Skill>, id: Id, body: SkillInput, now: int)
    requires CreateSkill(t, id, body, now).0.Created?
    ensures var s := CreateSkill(t, id, body, now).0.record;
      && s.fields.proficiency == (if body.proficiency.None? || body.proficiency.value == 0 then 50 else body.proficiency.value)
      && s.fields.order == (if body.order.None? then 0 else body.order.value)
      && s.fields.icon == (if body.icon.None? then "" else body.icon.value)
      && s.fields.category == (if body.category.None? then Other else ParseCategory(body.category.value).value)
      && s.fields.proficiency != 0
      && s.id == id && s.createdAt == now && s.updatedAt == now
  {
    BuildStores(CreateInput(body));
  }

  /** Create appends exactly one skill or, on a violation, answers 400 and writes nothing. */
  lemma CreateAppendsOrRejects(t: seq<Skill>, id: Id, body: SkillInput, now: int)
    ensures var (reply, t') := CreateSkill(t, id, body, now);
      && (reply.Created? || reply.Invalid?)
      && (reply.Created? ==> t' == t + [reply.record] && Status(reply) == 201)
      && (reply.Invalid? ==> t' == t && Status(reply) == 400 && reply.error != [])
  {
  }

  /** On an unknown id, get, update and delete answer 404 and change nothing. */
  lemma UnknownIdIsNotFound(t: seq<Skill>, id: Id, body: SkillInput, now: int)
    requires !HasId(t, id, SkillId)
    ensures GetSkill(t, id) == NotFound
    ensures UpdateSkill(t, id, body, now) == (NotFound, t)
    ensures DeleteSkill(t, id) == (NotFound, t)
  {
  }

  /** A successful update rewrites only the addressed skill, and in it only
      the paths the body sets; the id and `createdAt` are kept. A rejected
      update writes nothing. */
  lemma UpdateOnlyTouchesBodyPaths(t: seq<Skill>, id: Id, body: SkillInput, now: int, k: nat)
    requires DistinctIds(t, SkillId)
    requires k < |t| && t[k].id == id
    ensures var (reply, t') := UpdateSkill(t, id, body, now);
      && (reply.Ok? || reply.Invalid?)
      && (reply.Invalid? ==> t' == t)
      && (reply.Ok? ==>
          && t' == t[k := reply.record]
          && reply.record.id == id && reply.record.createdAt == t[k].createdAt && reply.record.updatedAt == now
          && (body.name.None? ==> reply.record.fields.name == t[k].fields.name)
          && (body.category.None? ==> reply.record.fields.category == t[k].fields.category)
          && (body.icon.None? ==> reply.record.fields.icon == t[k].fields.icon)
          && (body.proficiency.None? ==> reply.record.fields.proficiency == t[k].fields.proficiency)
          && (body.order.None? ==> reply.record.fields.order == t[k].fields.order))
  {
    FindUnique(t, id, SkillId, k);
    var u := Update(t[k].fields, body);
    if u.Passed? {
      ReplaceOne(t, id, t[k].(fields := u.fields, updatedAt := now), SkillId, k);
    }
  }

  /** Delete removes exactly the skill with that id and keeps the others in order. */
  lemma DeleteRemovesExactlyOne(t: seq<Skill>, id: Id, k: nat)
    requires DistinctIds(t, SkillId)
    requires k < |t| && t[k].id == id
    ensures DeleteSkill(t, id) == (Deleted, t[..k] + t[k + 1..])
  {
    FindUnique(t, id, SkillId, k);
    RemoveOne(t, id, SkillId, k);
  }

  /** Create keeps the collection invariant when it takes the id counter. */
  lemma CreateKeepsInvariant(t: seq<Skill>, nextId: Id, body: SkillInput, now: int)
    requires StoreInvariant(t, nextId)
    ensures StoreInvariant(CreateSkill(t, nextId, body, now).1, nextId + 1)
  {
    var created := CreateSkill(t, nextId, body, now).1;
    if created != t {
      assert created == t + [created[|t|]];
      forall i, j | 0 <= i < j < |created| ensures SkillId(created[i]) != SkillId(created[j]) {
        assert created[i] == t[i];
      }
    }
  }

  /** Update keeps the collection invariant: ids are untouched and the new
      paths pass the schema. */
  lemma UpdateKeepsInvariant(t: seq<Skill>, nextId: Id, id: Id, body: SkillInput, now: int)
    requires StoreInvariant(t, nextId)
    ensures StoreInvariant(UpdateSkill(t, id, body, now).1, nextId)
  {
    var found := Find(t, id, SkillId);
    if found.Some? {
      var k :| 0 <= k < |t| && t[k] == found.value;
      UpdateOnlyTouchesBodyPaths(t, id, body, now, k);
      var (reply, updated) := UpdateSkill(t, id, body, now);
      if reply.Ok? {
        RewriteKeepsInvariant(t, nextId, k, reply.record);
      }
    }
  }

  /** Rewriting one skill with a conforming one of the same id keeps the invariant. */
  lemma RewriteKeepsInvariant(t: seq<Skill>, nextId: Id, k: nat, s: Skill)
    requires StoreInvariant(t, nextId) && k < |t|
    requires s.id == t[k].id && Conforms(s.fields)
    ensures StoreInvariant(t[k := s], nextId)
  {
    assert forall i :: 0 <= i < |t| ==> t[k := s][i].id == t[i].id;
  }

  /** Delete keeps the collection invariant. */
  lemma DeleteKeepsInvariant(t: seq<Skill>, nextId: Id, id: Id)
    requires StoreInvariant(t, nextId)
    ensures StoreInvariant(DeleteSkill(t, id).1, nextId)
  {
    RemoveKeeps(t, id, SkillId);
    var deleted := DeleteSkill(t, id).1;
    forall i | 0 <= i < |deleted| ensures deleted[i].id < nextId && Conforms(deleted[i].fields) {
      assert deleted[i] in t;
    }
  }

  // ------------------------------------------------------------------ the store

  /** The Skill collection as the controller sees it, updated in place by each handler. */
  class SkillStore {
    var skills: seq<Skill>
    var nextId: Id

    ghost predicate Valid()
      reads this
    {
      StoreInvariant(skills, nextId)
    }

    constructor ()
      ensures Valid() && skills == [] && nextId == 0
    {
      skills := [];
      nextId := 0;
    }

    method List() returns (r: seq<Skill>)
      requires Valid()
      ensures r == ListSkills(skills)
    {
      r := ListSkills(skills);
    }

    method ListCategory(category: string) returns (r: seq<Skill>)
      requires Valid()
      ensures r == ListByCategory(skills, category)
    {
      r := ListByCategory(skills, category);
    }

    method Get(id: Id) returns (reply: SkillReply)
      requires Valid()
      ensures reply == GetSkill(skills, id)
    {
      var found := Find(skills, id, SkillId);
      if found.None? {
        return NotFound;
      }
      reply := Ok(found.value);
    }

    method Create(body: SkillInput, now: int) returns (reply: SkillReply)
      requires Valid()
      modifies this
      ensures Valid()
      ensures (reply, skills) == CreateSkill(old(skills), old(nextId), body, now)
      ensures nextId == (if reply.Created? then old(nextId) + 1 else old(nextId))
    {
      var checked := Build(CreateInput(body));
      if checked.Failed? {
        return Invalid(checked.violations);
      }
      var s := Skill(nextId, checked.fields, now, now);
      skills := skills + [s];
      nextId := nextId + 1;
      reply := Created(s);
      CreateKeepsInvariant(old(skills), old(nextId), body, now);
    }

    method Update(id: Id, body: SkillInput, now: int) returns (reply: SkillReply)
      requires Valid()
      modifies this
      ensures Valid() && nextId == old(nextId)
      ensures (reply, skills) == UpdateSkill(old(skills), id, body, now)
    {
      UpdateKeepsInvariant(skills, nextId, id, body, now);
      var found := Find(skills, id, SkillId);
      if found.None? {
        return NotFound;
      }
      var checked := SkillSchema.Update(found.value.fields, body);
      if checked.Failed? {
        return Invalid(checked.violations);
      }
      var s := found.value.(fields := checked.fields, updatedAt := now);
      skills := Replace(skills, id, s, SkillId);
      reply := Ok(s);
    }

    method Delete(id: Id) returns (reply: SkillReply)
      requires Valid()
      modifies this
      ensures Valid() && nextId == old(nextId)
      ensures (reply, skills) == DeleteSkill(old(skills), id)
    {
      DeleteKeepsInvariant(skills, nextId, id);
      var found := Find(skills, id, SkillId);
      if found.None? {
        return NotFound;
      }
      skills := Remove(skills, id, SkillId);
      reply := Deleted;
    }
  }
}
