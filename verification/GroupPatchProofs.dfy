/** What every group patch keeps, and when its result does not depend on the order in
    which Go visits the keys of an object. */
module GroupPatchProofs {
  import opened Text
  import opened ScimGrammar
  import opened ScimPatch
  import opened GroupPatch

  /** No patch brings duplicates into the member list. */
  lemma MembersStayDistinct(env: Env, s: GroupState, ops: seq<PatchOp>, r: Result<GroupState, PatchError>)
    requires PatchOutcome(Groups(), env, s, ops, r) && NoDuplicates(s.members)
    ensures r.Ok? ==> NoDuplicates(r.value.members)
  {
    var keep := (x: GroupState) => NoDuplicates(x.members);
    forall mode, p, raw, x | Groups().decode(env, mode, p, raw).Ok? && keep(x)
      ensures keep(Groups().apply(Groups().decode(env, mode, p, raw).value, x))
    {
      match Groups().decode(env, mode, p, raw).value
      case SetName(_) =>
      case AddMembers(ids) => MergeIsUnion(x.members, ids);
      case SetMembers(ids) => DedupIsSet(ids);
    }
    forall p, x | keep(x) && Groups().remove(env, p, x).Ok?
      ensures keep(Groups().remove(env, p, x).value)
    {
      if p.filter.Some? && FilteredMember(p.filter.value, env.uuid).Some? {
        RemoveIsDifference(x.members, FilteredMember(p.filter.value, env.uuid).value);
      }
    }
    PatchKeeps(Groups(), env, s, ops, r, keep);
  }

  /** Adding a new member and removing it again restores the list. */
  lemma AddThenRemove(xs: seq<nat>, id: nat)
    requires id !in xs
    ensures RemoveMember(MergeMembers(xs, [id]), id) == xs
  {
    assert [id][..0] == [];
    assert MergeMembers(xs, [id]) == xs + [id];
    FirstIs(xs + [id], id, |xs|);
    RemoveIsDifference(xs + [id], id);
  }

  /* ----- determinism ----- */

  /** The elements of `xs` that are not in `s`. */
  function NotIn(xs: seq<nat>, s: seq<nat>): seq<nat> {
    if xs == [] then []
    else
      var n := |xs| - 1;
      NotIn(xs[..n], s) + if xs[n] in s then [] else [xs[n]]
  }

  lemma {:induction false} NotInMembers(xs: seq<nat>, s: seq<nat>)
    ensures forall x :: x in NotIn(xs, s) <==> x in xs && x !in s
  {
    if xs != [] {
      var n := |xs| - 1;
      NotInMembers(xs[..n], s);
      assert xs == xs[..n] + [xs[n]];
    }
  }

  lemma NotInMore(xs: seq<nat>, x: nat, s: seq<nat>)
    ensures NotIn(xs + [x], s) == NotIn(xs, s) + if x in s then [] else [x]
  {
    assert (xs + [x])[..|xs|] == xs;
  }

  /** Adding appends what adding to the empty list gives, as far as it is new. */
  lemma {:induction false} MergeAppends(s: seq<nat>, xs: seq<nat>)
    ensures MergeMembers(s, xs) == s + NotIn(DedupMembers(xs), s)
  {
    if xs == [] {
      assert s + [] == s;
    } else {
      var n := |xs| - 1;
      var x, before := xs[n], DedupMembers(xs[..n]);
      MergeAppends(s, xs[..n]);
      NotInMembers(before, s);
      NotInMore(before, x, s);
      if x !in before && x !in s {
        assert s + (NotIn(before, s) + [x]) == s + NotIn(before, s) + [x];
      } else if x !in before {
        assert NotIn(before, s) + [] == NotIn(before, s);
      }
    }
  }

  lemma {:induction false} MergeJoin(s: seq<nat>, a: seq<nat>, b: seq<nat>)
    ensures MergeMembers(MergeMembers(s, a), b) == MergeMembers(s, a + b)
  {
    if b == [] {
      assert a + b == a;
    } else {
      var n := |b| - 1;
      MergeJoin(s, a, b[..n]);
      assert (a + b)[..|a| + n] == a + b[..n];
    }
  }

  /** Leaving out more than was left out. */
  lemma {:induction false} NotInTwice(xs: seq<nat>, s: seq<nat>, t: seq<nat>)
    requires forall x :: x in s ==> x in t
    ensures NotIn(NotIn(xs, s), t) == NotIn(xs, t)
  {
    if xs != [] {
      var n := |xs| - 1;
      NotInTwice(xs[..n], s, t);
      NotInMore(NotIn(xs[..n], s), xs[n], t);
      if xs[n] in s {
        assert NotIn(xs, s) == NotIn(xs[..n], s);
      }
    }
  }

  /** Two updates lead from `s` to one state in either order: the same name, the same
      list of members, or additions that leave the same list. */
  predicate Agree(s: GroupState, u: Update, v: Update) {
    match (u, v)
    case (SetName(x), SetName(y)) => x == y
    case (SetMembers(a), SetMembers(b)) => DedupMembers(a) == DedupMembers(b)
    case (AddMembers(a), AddMembers(b)) => MergeMembers(s.members, a + b) == MergeMembers(s.members, b + a)
    case (SetMembers(_), AddMembers(_)) => false
    case (AddMembers(_), SetMembers(_)) => false
    case _ => true
  }

  /** The states with all members of `s`; all states, if members are replaced. */
  function Above(mode: Mode, s: GroupState): GroupState -> bool {
    (t: GroupState) => mode.Replace? || forall x :: x in s.members ==> x in t.members
  }

  /** Additions that leave the same list in one state do so in every one above it. */
  lemma AddsCommute(s: seq<nat>, t: seq<nat>, a: seq<nat>, b: seq<nat>)
    requires MergeMembers(s, a + b) == MergeMembers(s, b + a) && forall x :: x in s ==> x in t
    ensures MergeMembers(MergeMembers(t, a), b) == MergeMembers(MergeMembers(t, b), a)
  {
    var x, y := DedupMembers(a + b), DedupMembers(b + a);
    MergeJoin(t, a, b);
    MergeJoin(t, b, a);
    MergeAppends(s, a + b);
    MergeAppends(s, b + a);
    MergeAppends(t, a + b);
    MergeAppends(t, b + a);
    SameTails(s, NotIn(x, s), NotIn(y, s));
    NotInTwice(x, s, t);
    NotInTwice(y, s, t);
  }

  lemma SameTails(s: seq<nat>, x: seq<nat>, y: seq<nat>)
    requires s + x == s + y
    ensures x == y
  {
    assert (s + x)[|s|..] == x && (s + y)[|s|..] == y;
  }

  /** What a leaf can ask for in a mode. */
  predicate OfMode(mode: Mode, u: Update) {
    if mode.Add? then !u.SetMembers? else !u.AddMembers?
  }

  lemma UpdateStays(mode: Mode, s: GroupState, u: Update)
    requires OfMode(mode, u)
    ensures Stays(Groups(), Above(mode, s), u)
  {
    forall t | Above(mode, s)(t)
      ensures Above(mode, s)(ApplyGroup(u, t))
    {
      if u.AddMembers? {
        MergeIsUnion(t.members, u.ids);
      }
    }
  }

  lemma AgreeCommute(mode: Mode, s: GroupState, u: Update, v: Update)
    requires OfMode(mode, u) && OfMode(mode, v) && Agree(s, u, v)
    ensures Commute(Groups(), Above(mode, s), u, v)
  {
    forall t | Above(mode, s)(t)
      ensures ApplyGroup(u, ApplyGroup(v, t)) == ApplyGroup(v, ApplyGroup(u, t))
    {
      if u.AddMembers? && v.AddMembers? {
        AddsCommute(s.members, t.members, u.ids, v.ids);
      }
    }
  }

  /** Any two supported leaves agree. */
  ghost predicate LeavesAgree(env: Env, mode: Mode, s: GroupState, leaves: seq<Leaf>) {
    forall i, j ::
      0 <= i < j < |leaves| && DecodeLeaf(Groups(), env, mode, leaves[i]).Ok?
      && DecodeLeaf(Groups(), env, mode, leaves[j]).Ok? ==>
      Agree(s, DecodeLeaf(Groups(), env, mode, leaves[i]).value, DecodeLeaf(Groups(), env, mode, leaves[j]).value)
  }

  lemma AgreeingLeaves(env: Env, mode: Mode, s: GroupState, leaves: seq<Leaf>)
    requires LeavesAgree(env, mode, s, leaves)
    ensures LeavesCommute(Groups(), env, mode, Above(mode, s), leaves)
  {
    forall i | 0 <= i < |leaves| && DecodeLeaf(Groups(), env, mode, leaves[i]).Ok?
      ensures Stays(Groups(), Above(mode, s), DecodeLeaf(Groups(), env, mode, leaves[i]).value)
    {
      UpdateStays(mode, s, DecodeLeaf(Groups(), env, mode, leaves[i]).value);
    }
    forall i, j | 0 <= i < j < |leaves| && DecodeLeaf(Groups(), env, mode, leaves[i]).Ok?
        && DecodeLeaf(Groups(), env, mode, leaves[j]).Ok?
      ensures Commute(Groups(), Above(mode, s), DecodeLeaf(Groups(), env, mode, leaves[i]).value,
                      DecodeLeaf(Groups(), env, mode, leaves[j]).value)
    {
      AgreeCommute(mode, s, DecodeLeaf(Groups(), env, mode, leaves[i]).value,
                   DecodeLeaf(Groups(), env, mode, leaves[j]).value);
    }
  }

  /* ----- orders that differ ----- */

  /** Two different replacements: the last one wins, in every state. */
  lemma LastReplacementWins(env: Env, mode: Mode, s: GroupState, leaves: seq<Leaf>, i: nat, j: nat, u: Update,
                            v: Update)
    requires i < |leaves| && j < |leaves| && DecodeLeaf(Groups(), env, mode, leaves[i]) == Ok(u)
             && DecodeLeaf(Groups(), env, mode, leaves[j]) == Ok(v)
    requires !SomeInvalid(Groups(), env, mode, leaves) && !Agree(s, u, v) && !u.AddMembers? && !v.AddMembers?
    ensures !OrdersAgree(Groups(), env, mode, s, leaves)
  {
    forall x, y
      ensures ApplyGroup(u, x) != ApplyGroup(v, y)
    {
      assert u.SetName? ==> ApplyGroup(u, x).properties["displayName"] != ApplyGroup(v, y).properties["displayName"];
    }
    LastDecides(Groups(), env, mode, s, leaves, i, j, u, v);
  }

  function FirstAre<T>(xs: seq<T>, i: nat, j: nat): seq<T>
    requires i < j < |xs|
  {
    [xs[i]] + ([xs[j]] + Without(Without(xs, j), i))
  }

  lemma FirstPermuted<T>(xs: seq<T>, i: nat, j: nat)
    requires i < j < |xs|
    ensures multiset(FirstAre(xs, i, j)) == multiset(xs)
    ensures multiset([xs[j]] + ([xs[i]] + Without(Without(xs, j), i))) == multiset(xs)
  {
    MultisetWithout(xs, j);
    MultisetWithout(Without(xs, j), i);
    assert Without(xs, j)[i] == xs[i];
  }

  /** In an addition the members only grow at the end. */
  lemma {:induction false} AddsGrow(env: Env, s: GroupState, leaves: seq<Leaf>)
    ensures var r := Fold(Groups(), env, Add, s, leaves); r.Some? ==> s.members <= r.value.members
    decreases |leaves|
  {
    if leaves != [] {
      var u := DecodeLeaf(Groups(), env, Add, leaves[0]);
      if u.Ok? {
        AddsGrow(env, ApplyGroup(u.value, s), leaves[1..]);
        if u.value.AddMembers? {
          MergeIsUnion(s.members, u.value.ids);
        }
      } else if u.error.NoTarget? {
        AddsGrow(env, s, leaves[1..]);
      }
    }
  }

  lemma SameLength(xs: seq<nat>, ys: seq<nat>)
    requires NoDuplicates(xs) && NoDuplicates(ys) && forall x :: x in xs <==> x in ys
    ensures |xs| == |ys|
  {
    ElementsBound(xs);
    ElementsBound(ys);
    assert Elements(xs) == Elements(ys);
  }

  /** The two additions first, one after the other. */
  lemma AddsFirst(env: Env, s: GroupState, la: Leaf, lb: Leaf, rest: seq<Leaf>, a: seq<nat>, b: seq<nat>)
    returns (r: GroupState)
    requires DecodeLeaf(Groups(), env, Add, la) == Ok(AddMembers(a))
             && DecodeLeaf(Groups(), env, Add, lb) == Ok(AddMembers(b))
    requires !SomeInvalid(Groups(), env, Add, rest)
    ensures Fold(Groups(), env, Add, s, [la] + ([lb] + rest)) == Some(r) && MergeMembers(s.members, a + b) <= r.members
  {
    var order := [la] + ([lb] + rest);
    var first := ApplyGroup(AddMembers(a), s);
    var second := ApplyGroup(AddMembers(b), first);
    assert order[1..] == [lb] + rest && order[1..][1..] == rest;
    MergeJoin(s.members, a, b);
    FoldIs(Groups(), env, Add, second, rest);
    AddsGrow(env, second, rest);
    r := Fold(Groups(), env, Add, second, rest).value;
  }

  /** Two additions that leave different lists. */
  lemma FirstAdditionShows(env: Env, s: GroupState, leaves: seq<Leaf>, i: nat, j: nat, a: seq<nat>, b: seq<nat>)
    requires i < j < |leaves| && DecodeLeaf(Groups(), env, Add, leaves[i]) == Ok(AddMembers(a))
             && DecodeLeaf(Groups(), env, Add, leaves[j]) == Ok(AddMembers(b))
    requires !SomeInvalid(Groups(), env, Add, leaves)
             && MergeMembers(s.members, a + b) != MergeMembers(s.members, b + a)
    ensures !OrdersAgree(Groups(), env, Add, s, leaves)
  {
    var rest := Without(Without(leaves, j), i);
    FirstPermuted(leaves, i, j);
    RestIsValid(env, leaves, i, j);
    var x := AddsFirst(env, s, leaves[i], leaves[j], rest, a, b);
    var y := AddsFirst(env, s, leaves[j], leaves[i], rest, b, a);
    UnionLength(s.members, a, b);
    PrefixesDiffer(MergeMembers(s.members, a + b), MergeMembers(s.members, b + a), x.members, y.members);
  }

  lemma RestIsValid(env: Env, leaves: seq<Leaf>, i: nat, j: nat)
    requires i < j < |leaves| && !SomeInvalid(Groups(), env, Add, leaves)
    ensures !SomeInvalid(Groups(), env, Add, Without(Without(leaves, j), i))
  {
    var rest := Without(Without(leaves, j), i);
    FirstPermuted(leaves, i, j);
    SameLeaves(FirstAre(leaves, i, j), leaves);
    forall leaf | leaf in rest
      ensures leaf in leaves
    {
      assert leaf in FirstAre(leaves, i, j);
    }
  }

  lemma {:induction false} NotInDistinct(xs: seq<nat>, s: seq<nat>)
    requires NoDuplicates(xs)
    ensures NoDuplicates(NotIn(xs, s))
  {
    if xs != [] {
      var n := |xs| - 1;
      NotInDistinct(xs[..n], s);
      NotInMembers(xs[..n], s);
      assert xs[n] !in xs[..n];
    }
  }

  lemma UnionLength(s: seq<nat>, a: seq<nat>, b: seq<nat>)
    ensures |MergeMembers(s, a + b)| == |MergeMembers(s, b + a)|
  {
    var x, y := DedupMembers(a + b), DedupMembers(b + a);
    MergeAppends(s, a + b);
    MergeAppends(s, b + a);
    DedupIsSet(a + b);
    DedupIsSet(b + a);
    NotInDistinct(x, s);
    NotInDistinct(y, s);
    NotInMembers(x, s);
    NotInMembers(y, s);
    SameLength(NotIn(x, s), NotIn(y, s));
  }

  lemma PrefixesDiffer(p: seq<nat>, q: seq<nat>, x: seq<nat>, y: seq<nat>)
    requires |p| == |q| && p != q && p <= x && q <= y
    ensures x != y
  {
    assert p == x[..|p|] && q == y[..|q|];
  }

  lemma DisagreementShows(env: Env, mode: Mode, s: GroupState, leaves: seq<Leaf>, i: nat, j: nat, u: Update, v: Update)
    requires i < j < |leaves| && DecodeLeaf(Groups(), env, mode, leaves[i]) == Ok(u)
             && DecodeLeaf(Groups(), env, mode, leaves[j]) == Ok(v)
    requires !SomeInvalid(Groups(), env, mode, leaves) && !Agree(s, u, v)
    ensures !OrdersAgree(Groups(), env, mode, s, leaves)
  {
    if u.AddMembers? || v.AddMembers? {
      assert mode == Add && u.AddMembers? && v.AddMembers?;
      FirstAdditionShows(env, s, leaves, i, j, u.ids, v.ids);
    } else {
      LastReplacementWins(env, mode, s, leaves, i, j, u, v);
    }
  }

  /* ----- determinism ----- */

  /** Exactly when the order of the leaves plays no part: some leaf is invalid, or
      they agree. */
  lemma OrdersAgreeExactly(env: Env, mode: Mode, s: GroupState, leaves: seq<Leaf>)
    ensures OrdersAgree(Groups(), env, mode, s, leaves) <==>
            SomeInvalid(Groups(), env, mode, leaves) || LeavesAgree(env, mode, s, leaves)
  {
    if SomeInvalid(Groups(), env, mode, leaves) {
      InvalidInAnyOrder(Groups(), env, mode, s, leaves);
    } else if LeavesAgree(env, mode, s, leaves) {
      AgreeingLeaves(env, mode, s, leaves);
      CommutingLeaves(Groups(), env, mode, Above(mode, s), s, leaves);
    } else {
      var i, j :| 0 <= i < j < |leaves| && DecodeLeaf(Groups(), env, mode, leaves[i]).Ok?
                  && DecodeLeaf(Groups(), env, mode, leaves[j]).Ok? &&
                  !Agree(s, DecodeLeaf(Groups(), env, mode, leaves[i]).value,
                         DecodeLeaf(Groups(), env, mode, leaves[j]).value);
      DisagreementShows(env, mode, s, leaves, i, j, DecodeLeaf(Groups(), env, mode, leaves[i]).value,
                        DecodeLeaf(Groups(), env, mode, leaves[j]).value);
    }
  }

  /** What makes an operation deterministic in a state. */
  ghost predicate Deterministic(env: Env, s: GroupState, op: PatchOp) {
    RootMode(env, op).Some? ==>
      var mode, leaves := RootMode(env, op).value, RawLeaves(op.value, env.paths);
      SomeInvalid(Groups(), env, mode, leaves) || LeavesAgree(env, mode, s, leaves)
  }

  lemma OpIsDeterministic(env: Env, s: GroupState, op: PatchOp)
    ensures OneOutcome(Groups(), env, s, op) <==> Deterministic(env, s, op)
  {
    OneOutcomeIff(Groups(), env, s, op);
    if RootMode(env, op).Some? {
      OrdersAgreeExactly(env, RootMode(env, op).value, s, RawLeaves(op.value, env.paths));
    }
  }

  /** A patch of such operations has one result. */
  lemma PatchIsDeterministic(env: Env, s: GroupState, ops: seq<PatchOp>, r: Result<GroupState, PatchError>,
                             r': Result<GroupState, PatchError>)
    requires forall op, t :: op in ops ==> Deterministic(env, t, op)
    requires PatchOutcome(Groups(), env, s, ops, r) && PatchOutcome(Groups(), env, s, ops, r')
    ensures r == r'
  {
    forall op, t | op in ops
      ensures OneOutcome(Groups(), env, t, op)
    {
      OpIsDeterministic(env, t, op);
    }
    PatchHasOneOutcome(Groups(), env, s, ops, r, r');
  }

  /** Among them are those whose objects name no attribute twice. */
  lemma DistinctIsDeterministic(env: Env, s: GroupState, op: PatchOp)
    requires DistinctAttributes(RawLeaves(op.value, env.paths))
    ensures Deterministic(env, s, op)
  {
  }

  function Named(s: GroupState, text: string): GroupState {
    s.(properties := s.properties["displayName" := ScimPatch.Json.Str(text)])
  }

  lemma TwoLeaves(env: Env, s: GroupState, order: seq<Leaf>, first: string, last: string)
    requires order == [Leaf(DisplayName, ScimPatch.Json.Str(first)), Leaf(DisplayName, ScimPatch.Json.Str(last))]
    ensures Fold(Groups(), env, Replace, s, order) == Some(Named(s, last))
  {
    assert order[1..] == [order[1]];
    FoldOne(Groups(), env, Replace, ApplyGroup(SetName(first), s), order[1].path, order[1].value);
    assert s.properties["displayName" := ScimPatch.Json.Str(first)]["displayName" := ScimPatch.Json.Str(last)]
           == s.properties["displayName" := ScimPatch.Json.Str(last)];
  }

  /** Two spellings of one attribute in one object: either value may win. */
  lemma SpellingsCompete(number: FloatParser, uuid: string -> Option<nat>, s: GroupState, x: string, y: string)
    ensures var env, op := Standard(number, uuid), TwoSpellings(x, y);
            OpOutcome(Groups(), env, s, op, Ok(Named(s, x))) && OpOutcome(Groups(), env, s, op, Ok(Named(s, y)))
  {
    var env, op := Standard(number, uuid), TwoSpellings(x, y);
    var la, lb := Leaf(DisplayName, ScimPatch.Json.Str(x)), Leaf(DisplayName, ScimPatch.Json.Str(y));
    SpellingsAre(number, uuid, x, y);
    TwoLeaves(env, s, [la, lb], x, y);
    TwoLeaves(env, s, [lb, la], y, x);
    assert multiset([lb, la]) == multiset([la, lb]);
    assert Ok(Named(s, y)) == OrInvalid(Fold(Groups(), env, Replace, s, [la, lb]));
    assert Ok(Named(s, x)) == OrInvalid(Fold(Groups(), env, Replace, s, [lb, la]));
    RootOutcome(Groups(), env, s, op, Ok(Named(s, x)));
    RootOutcome(Groups(), env, s, op, Ok(Named(s, y)));
  }

  /** So the result of a patch can depend on the order in which Go visits the keys. */
  lemma ResultCanDependOnOrder(number: FloatParser, uuid: string -> Option<nat>, s: GroupState, x: string, y: string)
    requires x != y
    ensures !OneOutcome(Groups(), Standard(number, uuid), s, TwoSpellings(x, y))
  {
    SpellingsCompete(number, uuid, s, x, y);
    assert Named(s, x).properties["displayName"] != Named(s, y).properties["displayName"];
    var r, r': Result<GroupState, Failure> := Ok(Named(s, x)), Ok(Named(s, y));
    assert r != r';
  }
}
