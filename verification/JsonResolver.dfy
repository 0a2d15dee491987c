/**
  The schema resolver: every object met on the walk through a schema is entered under its URI, and a URI
  entered twice is an error.  How an "id" field changes the URI enters as the function `derive`.
  References collected from "$ref" fields are not modelled.
 */
module JsonResolver {
  import opened Wrappers
  import opened JsonPointer
  import Decimal

  datatype Member = Member(key: string, value: Json)
  datatype Json = Object(members: seq<Member>) | Array(items: seq<Json>) | Text(text: string) | Scalar

  datatype Uri = Uri(base: string, pointer: string)

  type Derive = (Uri, string) -> Uri

  /** json_uri::append */
  function Append(u: Uri, field: string): Uri { u.(pointer := u.pointer + "/" + field) }

  /** The value of the "id" field, if it is a string. */
  function IdField(members: seq<Member>): Option<string> {
    if members == [] then None
    else if members[0].key == "id" && members[0].value.Text? then Some(members[0].value.text)
    else IdField(members[1..])
  }

  function SchemaUri(derive: Derive, j: Json, u: Uri): Uri
    requires j.Object?
  {
    var id := IdField(j.members);
    if id.Some? then derive(u, id.value) else u
  }

  // ---- the walk ----

  /** The sub-schemas of an object with their URIs, in the order they are met. */
  function Refs(derive: Derive, j: Json, u: Uri): seq<(Uri, Json)>
    requires j.Object?
    decreases j, 2, 0
  {
    var id := SchemaUri(derive, j, u);
    [(id, j)] + MemberRefs(derive, j, 0, id)
  }

  function MemberRefs(derive: Derive, j: Json, i: nat, u: Uri): seq<(Uri, Json)>
    requires j.Object? && i <= |j.members|
    decreases j, 1, |j.members| - i
  {
    if i == |j.members| then []
    else ChildRefs(derive, j.members[i], u) + MemberRefs(derive, j, i + 1, u)
  }

  function ChildRefs(derive: Derive, m: Member, u: Uri): seq<(Uri, Json)>
    decreases m, 0, 0
  {
    if m.key == "default" then []
    else match m.value
      case Object(_) => Refs(derive, m.value, Append(u, Escaped(m.key)))
      case Array(_) => ItemRefs(derive, m.value, 0, Append(u, Escaped(m.key)))
      case _ => []
  }

  function ItemRefs(derive: Derive, a: Json, i: nat, u: Uri): seq<(Uri, Json)>
    requires a.Array? && i <= |a.items|
    decreases a, 1, |a.items| - i
  {
    if i == |a.items| then []
    else
      (if a.items[i].Object? then Refs(derive, a.items[i], Append(u, Decimal.Text(i))) else [])
      + ItemRefs(derive, a, i + 1, u)
  }

  /** Entering a list of sub-schemas one after the other; None stands for the exception. */
  function Entered(refs: map<Uri, Json>, list: seq<(Uri, Json)>): Option<map<Uri, Json>>
    decreases |list|
  {
    if list == [] then Some(refs)
    else if list[0].0 in refs then None
    else Entered(refs[list[0].0 := list[0].1], list[1..])
  }

  lemma {:induction false} EnteredConcat(refs: map<Uri, Json>, a: seq<(Uri, Json)>, b: seq<(Uri, Json)>)
    ensures Entered(refs, a + b)
         == if Entered(refs, a).None? then None else Entered(Entered(refs, a).value, b)
    decreases |a|
  {
    if a == [] {
      assert a + b == b;
    } else {
      assert (a + b)[1..] == a[1..] + b;
      if a[0].0 !in refs {
        EnteredConcat(refs[a[0].0 := a[0].1], a[1..], b);
      }
    }
  }

  class Resolver {
    const derive: Derive
    var refs: map<Uri, Json>

    constructor (derive: Derive)
      ensures this.derive == derive && refs == map[]
    {
      this.derive := derive;
      refs := map[];
    }

    /** resolve; false stands for the exception. */
    method Resolve(j: Json, u: Uri) returns (ok: bool)
      requires j.Object?
      modifies this
      ensures ok <==> Entered(old(refs), Refs(derive, j, u)).Some?
      ensures ok ==> Some(refs) == Entered(old(refs), Refs(derive, j, u))
      decreases j, 2
    {
      var id := SchemaUri(derive, j, u);
      ghost var was := refs;
      EnteredConcat(was, [(id, j)], MemberRefs(derive, j, 0, id));
      assert [(id, j)][1..] == [];
      if id in refs {
        return false;
      }
      refs := refs[id := j];
      ghost var first := refs;
      for i := 0 to |j.members|
        invariant Entered(first, MemberRefs(derive, j, 0, id)) == Entered(refs, MemberRefs(derive, j, i, id))
      {
        var m := j.members[i];
        EnteredConcat(refs, ChildRefs(derive, m, id), MemberRefs(derive, j, i + 1, id));
        var done := ResolveMember(m, id);
        if !done {
          return false;
        }
      }
      ok := true;
    }

    method ResolveMember(m: Member, u: Uri) returns (ok: bool)
      modifies this
      ensures ok <==> Entered(old(refs), ChildRefs(derive, m, u)).Some?
      ensures ok ==> Some(refs) == Entered(old(refs), ChildRefs(derive, m, u))
      decreases m, 1
    {
      ok := true;
      if m.key == "default" {
        return;
      }
      match m.value
      case Object(_) =>
        var key := Escape(m.key);
        ok := Resolve(m.value, Append(u, key));
      case Array(_) =>
        var key := Escape(m.key);
        ok := ResolveItems(m.value, Append(u, key));
      case _ =>
    }

    method ResolveItems(a: Json, u: Uri) returns (ok: bool)
      requires a.Array?
      modifies this
      ensures ok <==> Entered(old(refs), ItemRefs(derive, a, 0, u)).Some?
      ensures ok ==> Some(refs) == Entered(old(refs), ItemRefs(derive, a, 0, u))
      decreases a, 2
    {
      ghost var was := refs;
      for i := 0 to |a.items|
        invariant Entered(was, ItemRefs(derive, a, 0, u)) == Entered(refs, ItemRefs(derive, a, i, u))
      {
        var here := Append(u, Decimal.Text(i));
        EnteredConcat(refs, if a.items[i].Object? then Refs(derive, a.items[i], here) else [], ItemRefs(derive, a, i + 1, u));
        if a.items[i].Object? {
          var done := Resolve(a.items[i], here);
          if !done {
            return false;
          }
        }
      }
      ok := true;
    }
  }

  // ---- distinct URIs ----

  /** No "id" field anywhere, and no key twice in an object, as in every JSON document. */
  ghost predicate Plain(j: Json)
    decreases j
  {
    match j
    case Object(members) =>
      && IdField(members) == None
      && (forall i, k | 0 <= i < k < |members| :: members[i].key != members[k].key)
      && (forall i | 0 <= i < |members| :: Plain(members[i].value))
    case Array(items) => forall i | 0 <= i < |items| :: Plain(items[i])
    case _ => true
  }

  /** v is u or lies below it. */
  predicate Under(v: Uri, u: Uri) {
    && v.base == u.base && u.pointer <= v.pointer
    && (|v.pointer| == |u.pointer| || v.pointer[|u.pointer|] == '/')
  }

  ghost predicate AllUnder(list: seq<(Uri, Json)>, u: Uri) { forall i | 0 <= i < |list| :: Under(list[i].0, u) }

  ghost predicate Distinct(list: seq<(Uri, Json)>) {
    forall i, k | 0 <= i < k < |list| :: list[i].0 != list[k].0
  }

  /** Two fields without a slash that a URI lies below are the same. */
  lemma SameField(v: Uri, u: Uri, a: string, b: string)
    requires Under(v, Append(u, a)) && Under(v, Append(u, b)) && '/' !in a && '/' !in b
    ensures a == b
  {
    var p, n := v.pointer, |u.pointer| + 1;
    assert Append(u, a).pointer == (u.pointer + "/") + a && Append(u, b).pointer == (u.pointer + "/") + b;
    assert p[n..n + |a|] == a && p[n..n + |b|] == b;
    assert forall i | 0 <= i < |a| :: p[n + i] == a[i];
    assert forall i | 0 <= i < |b| :: p[n + i] == b[i];
  }

  lemma UnderField(v: Uri, u: Uri, a: string)
    requires Under(v, Append(u, a))
    ensures Under(v, u) && v != u
  {
    assert Append(u, a).pointer == u.pointer + ("/" + a);
    assert v.pointer[|u.pointer|] == Append(u, a).pointer[|u.pointer|];
  }

  lemma DistinctConcat(a: seq<(Uri, Json)>, b: seq<(Uri, Json)>)
    requires Distinct(a) && Distinct(b) && forall i, k | 0 <= i < |a| && 0 <= k < |b| :: a[i].0 != b[k].0
    ensures Distinct(a + b)
  {
  }

  /** v lies below the field of some member from i on. */
  ghost predicate BelowMember(v: Uri, u: Uri, members: seq<Member>, i: nat) {
    exists k :: i <= k < |members| && Under(v, Append(u, Escaped(members[k].key)))
  }

  ghost predicate BelowItem(v: Uri, u: Uri, i: nat) {
    exists k: nat :: i <= k && Under(v, Append(u, Decimal.Text(k)))
  }

  lemma {:induction false} RefsOk(derive: Derive, j: Json, u: Uri)
    requires j.Object? && Plain(j)
    ensures AllUnder(Refs(derive, j, u), u) && Distinct(Refs(derive, j, u))
    decreases j, 2, 0
  {
    var list := MemberRefs(derive, j, 0, u);
    MembersOk(derive, j, 0, u);
    forall i | 0 <= i < |list| ensures Under(list[i].0, u) && list[i].0 != u {
      var k :| 0 <= k < |j.members| && Under(list[i].0, Append(u, Escaped(j.members[k].key)));
      UnderField(list[i].0, u, Escaped(j.members[k].key));
    }
    DistinctConcat([(u, j)], list);
  }

  lemma {:induction false} MembersOk(derive: Derive, j: Json, i: nat, u: Uri)
    requires j.Object? && Plain(j) && i <= |j.members|
    ensures Distinct(MemberRefs(derive, j, i, u))
    ensures forall n | 0 <= n < |MemberRefs(derive, j, i, u)| :: BelowMember(MemberRefs(derive, j, i, u)[n].0, u, j.members, i)
    decreases j, 1, |j.members| - i
  {
    if i < |j.members| {
      var m := j.members[i];
      var here, rest := ChildRefs(derive, m, u), MemberRefs(derive, j, i + 1, u);
      ChildOk(derive, m, u);
      MembersOk(derive, j, i + 1, u);
      forall n, k | 0 <= n < |here| && 0 <= k < |rest| ensures here[n].0 != rest[k].0 {
        if here[n].0 == rest[k].0 {
          MembersApart(here[n].0, u, j.members, i);
        }
      }
      DistinctConcat(here, rest);
      forall n | 0 <= n < |here + rest| ensures BelowMember((here + rest)[n].0, u, j.members, i) {
        if n >= |here| {
          assert BelowMember(rest[n - |here|].0, u, j.members, i + 1);
        }
      }
    }
  }

  /** A URI below one member's field is not below another's. */
  lemma MembersApart(v: Uri, u: Uri, members: seq<Member>, i: nat)
    requires i < |members| && forall a, b | 0 <= a < b < |members| :: members[a].key != members[b].key
    requires Under(v, Append(u, Escaped(members[i].key)))
    ensures !BelowMember(v, u, members, i + 1)
  {
    if k :| i + 1 <= k < |members| && Under(v, Append(u, Escaped(members[k].key))) {
      NoSlash(members[i].key);
      NoSlash(members[k].key);
      SameField(v, u, Escaped(members[i].key), Escaped(members[k].key));
      EscapedInjective(members[i].key, members[k].key);
    }
  }

  lemma {:induction false} ChildOk(derive: Derive, m: Member, u: Uri)
    requires Plain(m.value)
    ensures AllUnder(ChildRefs(derive, m, u), Append(u, Escaped(m.key))) && Distinct(ChildRefs(derive, m, u))
    decreases m, 0, 0
  {
    var here := Append(u, Escaped(m.key));
    if m.key != "default" {
      match m.value
      case Object(_) => RefsOk(derive, m.value, here);
      case Array(_) =>
        ItemsOk(derive, m.value, 0, here);
        var list := ItemRefs(derive, m.value, 0, here);
        forall n | 0 <= n < |list| ensures Under(list[n].0, here) {
          var k: nat :| 0 <= k && Under(list[n].0, Append(here, Decimal.Text(k)));
          UnderField(list[n].0, here, Decimal.Text(k));
        }
      case _ =>
    }
  }

  lemma {:induction false} ItemsOk(derive: Derive, a: Json, i: nat, u: Uri)
    requires a.Array? && Plain(a) && i <= |a.items|
    ensures Distinct(ItemRefs(derive, a, i, u))
    ensures forall n | 0 <= n < |ItemRefs(derive, a, i, u)| :: BelowItem(ItemRefs(derive, a, i, u)[n].0, u, i)
    decreases a, 1, |a.items| - i
  {
    if i < |a.items| {
      var field := Decimal.Text(i);
      var here := if a.items[i].Object? then Refs(derive, a.items[i], Append(u, field)) else [];
      var rest := ItemRefs(derive, a, i + 1, u);
      if a.items[i].Object? {
        RefsOk(derive, a.items[i], Append(u, field));
      }
      ItemsOk(derive, a, i + 1, u);
      forall n, k | 0 <= n < |here| && 0 <= k < |rest| ensures here[n].0 != rest[k].0 {
        if here[n].0 == rest[k].0 {
          ItemsApart(here[n].0, u, i);
        }
      }
      DistinctConcat(here, rest);
      forall n | 0 <= n < |here + rest| ensures BelowItem((here + rest)[n].0, u, i) {
        if n >= |here| {
          assert BelowItem(rest[n - |here|].0, u, i + 1);
        }
      }
    }
  }

  lemma ItemsApart(v: Uri, u: Uri, i: nat)
    requires Under(v, Append(u, Decimal.Text(i)))
    ensures !BelowItem(v, u, i + 1)
  {
    if k: nat :| i + 1 <= k && Under(v, Append(u, Decimal.Text(k))) {
      SameField(v, u, Decimal.Text(i), Decimal.Text(k));
      Decimal.TextInjective(i, k);
    }
  }

  lemma {:induction false} EnteredDistinct(refs: map<Uri, Json>, list: seq<(Uri, Json)>)
    requires Distinct(list) && forall i | 0 <= i < |list| :: list[i].0 !in refs
    ensures var r := Entered(refs, list);
            && r.Some? && (forall v | v in refs :: v in r.value && r.value[v] == refs[v])
            && (forall i | 0 <= i < |list| :: list[i].0 in r.value && r.value[list[i].0] == list[i].1)
            && |r.value| == |refs| + |list|
    decreases |list|
  {
    if list != [] {
      var first, rest := list[0], list[1..];
      var more := refs[first.0 := first.1];
      EnteredDistinct(more, rest);
      assert |more| == |refs| + 1;
      assert forall i | 0 < i < |list| :: list[i] == rest[i - 1];
    }
  }

  /** A schema with no "id" field resolves without error, every sub-schema met on the walk has a URI of its own,
      and each is found under it. */
  lemma PlainSchemaResolves(derive: Derive, j: Json, u: Uri)
    requires j.Object? && Plain(j)
    ensures var list, r := Refs(derive, j, u), Entered(map[], Refs(derive, j, u));
            && Distinct(list) && r.Some? && |r.value| == |list|
            && (forall i | 0 <= i < |list| :: list[i].0 in r.value && r.value[list[i].0] == list[i].1)
  {
    RefsOk(derive, j, u);
    EnteredDistinct(map[], Refs(derive, j, u));
  }
}
