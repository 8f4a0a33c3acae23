/** Update plans, their canonical form and what comparing digests decides. */
module Plans {
  import opened Wrappers
  import opened Sorting
  import opened Orders

  datatype PlanStatus = Draft | Blocked | Ready | Confirmed | Invalidated

  datatype ChangeKind = Install | Upgrade | Remove | Downgrade

  datatype Change = Change(package: string, from: Option<string>, to: Option<string>, kind: ChangeKind)

  datatype UpdatePlan = UpdatePlan(
    id: string, container: nat, requested: seq<string>, changes: seq<Change>, status: PlanStatus, hash: Option<string>)

  predicate CanMovePlan(from: PlanStatus, to: PlanStatus) {
    match from
    case Draft => to in {Blocked, Ready, Invalidated}
    case Blocked => to in {Draft, Invalidated}
    case Ready => to in {Confirmed, Invalidated}
    case Confirmed => to == Invalidated
    case Invalidated => false
  }

  /** A plan is confirmed only from Ready, judged only as a draft, and can be invalidated once. */
  lemma PlanEnteredExactly(from: PlanStatus, to: PlanStatus)
    ensures CanMovePlan(from, to) <==>
              match to
              case Draft => from == Blocked
              case Blocked => from == Draft
              case Ready => from == Draft
              case Confirmed => from == Ready
              case Invalidated => from != Invalidated
  {
  }

  function MovePlan(plan: UpdatePlan, to: PlanStatus): (r: Option<UpdatePlan>) {
    if CanMovePlan(plan.status, to) then Some(plan.(status := to)) else None
  }

  function KindRank(kind: ChangeKind): (rank: nat) {
    match kind case Install => 0 case Upgrade => 1 case Remove => 2 case Downgrade => 3
  }

  /** Comparison of the sort keys (package, from, to, kind). */
  function CompareChange(a: Change, b: Change): (r: Ordering) {
    Then(CompareText(a.package, b.package),
         Then(CompareOptional(a.from, b.from),
              Then(CompareOptional(a.to, b.to), CompareInt(KindRank(a.kind), KindRank(b.kind)))))
  }

  predicate ChangeLe(a: Change, b: Change) {
    CompareChange(a, b) != Greater
  }

  datatype CanonicalPlan = CanonicalPlan(container: nat, requested: seq<string>, changes: seq<Change>)

  function Canonical(plan: UpdatePlan): (r: CanonicalPlan) {
    CanonicalPlan(plan.container, SortBy(plan.requested, TextLe), SortBy(plan.changes, ChangeLe))
  }

  /** Digest of the encoded canonical plan. */
  type Digest = CanonicalPlan -> string

  function CalculateHash(digest: Digest, plan: UpdatePlan): (hash: string) {
    digest(Canonical(plan))
  }

  function RefreshHash(digest: Digest, plan: UpdatePlan): (r: UpdatePlan) {
    plan.(hash := Some(CalculateHash(digest, plan)))
  }

  predicate HasSameContent(digest: Digest, a: UpdatePlan, b: UpdatePlan) {
    CalculateHash(digest, a) == CalculateHash(digest, b)
  }

  // ---- the sort key orders changes totally ----

  lemma ChangeEqual(a: Change, b: Change)
    ensures CompareChange(a, b) == Equal <==> a == b
    ensures CompareChange(b, a) == Reversed(CompareChange(a, b))
  {
    TextEqual(a.package, b.package);
    OptionalEqual(a.from, b.from);
    OptionalEqual(a.to, b.to);
  }

  lemma ChangeTransitive(a: Change, b: Change, c: Change)
    ensures Transitive(CompareChange(a, b), CompareChange(b, c), CompareChange(a, c))
  {
    TextTransitive(a.package, b.package, c.package);
    OptionalTransitive(a.from, b.from, c.from);
    OptionalTransitive(a.to, b.to, c.to);
  }

  lemma ChangeOrder()
    ensures Preorder(ChangeLe)
    ensures forall a, b :: ChangeLe(a, b) && ChangeLe(b, a) ==> a == b
  {
    forall a, b ensures (ChangeLe(a, b) || ChangeLe(b, a)) && (ChangeLe(a, b) && ChangeLe(b, a) ==> a == b) {
      ChangeEqual(a, b);
    }
    forall a, b, c | ChangeLe(a, b) && ChangeLe(b, c) ensures ChangeLe(a, c) {
      ChangeTransitive(a, b, c);
    }
  }

  // ---- content equality ----

  ghost predicate Injective(digest: Digest) {
    forall a, b :: digest(a) == digest(b) ==> a == b
  }

  /** Same container, and the same packages and changes counted with multiplicity. */
  ghost predicate SameContent(a: UpdatePlan, b: UpdatePlan) {
    && a.container == b.container
    && multiset(a.requested) == multiset(b.requested)
    && multiset(a.changes) == multiset(b.changes)
  }

  lemma CanonicalExactly(a: UpdatePlan, b: UpdatePlan)
    ensures Canonical(a) == Canonical(b) <==> SameContent(a, b)
  {
    TextOrder();
    ChangeOrder();
    SortForgetsOrder(a.requested, b.requested, TextLe);
    SortForgetsOrder(a.changes, b.changes, ChangeLe);
  }

  /** Comparing digests decides equality of content as multisets. */
  lemma SameContentExactly(digest: Digest, a: UpdatePlan, b: UpdatePlan)
    requires Injective(digest)
    ensures HasSameContent(digest, a, b) <==> SameContent(a, b)
  {
    CanonicalExactly(a, b);
  }

  /** Reordering never changes the digest, whatever the digest function. */
  lemma ReorderingKeepsHash(digest: Digest, a: UpdatePlan, b: UpdatePlan)
    requires SameContent(a, b)
    ensures CalculateHash(digest, a) == CalculateHash(digest, b)
  {
    CanonicalExactly(a, b);
  }
}
