/**
 * The menu "show" processor of the SWT menu renderer
 * (MenuManagerShowProcessor): the one-shot clean-up table kept per menu,
 * and the bookkeeping that installs the elements a dynamic menu
 * contribution supplies.
 *
 * The renderer, the contribution factory and the dependency-injection
 * invocation are not modelled; each call to them is recorded as an
 * `Action`, and what they return is an input.
 */
module DynamicMenus {
  import opened Wrappers

  /** A menu model element: its identity, whether it is a dynamic menu contribution, and its contribution URI. */
  datatype MenuElement = MenuElement(id: nat, dynamic: bool, contributionUri: string)

  /** An element container (the parent of menu elements). */
  datatype Container = Container(id: nat)

  /** The object that implements a dynamic contribution. */
  datatype Contribution = Contribution(id: nat)

  /** A menu widget and a clean-up task. */
  datatype Menu = Menu(id: nat)
  datatype Runnable = Runnable(id: nat)

  /** The calls the processor makes to code outside this model, in order. */
  datatype Action =
    | RanCleanUp(task: Runnable)
    | CreatedContribution(element: MenuElement, uri: string)
    | InvokedAboutToShow(contribution: Contribution, element: MenuElement)
    | RemovedContributions(elements: seq<MenuElement>)
    | ProcessedElement(element: MenuElement)

  /** The transient-data key under which a contribution's current elements are kept. */
  const DynamicElementStorageKey := "MenuManagerShowProcessor.dynamicElements"

  /**
   * The attributes of menu elements that the processor reads and writes.
   * An element absent from `elementId`, `parent` or `contributionObject` has `null` there;
   * an element absent from `transientData` has an empty transient map.
   */
  datatype Elements = Elements(
    elementId: map<MenuElement, string>,
    parent: map<MenuElement, Container>,
    contributionObject: map<MenuElement, Contribution>,
    transientData: map<MenuElement, map<string, seq<MenuElement>>>)

  function IdOf(st: Elements, e: MenuElement): Option<string> {
    if e in st.elementId then Some(st.elementId[e]) else None
  }

  function ParentOf(st: Elements, e: MenuElement): Option<Container> {
    if e in st.parent then Some(st.parent[e]) else None
  }

  function DataOf(st: Elements, e: MenuElement): map<string, seq<MenuElement>> {
    if e in st.transientData then st.transientData[e] else map[]
  }

  /** `setParent(p)`, with `p` possibly `null`. */
  function WithParent(st: Elements, e: MenuElement, p: Option<Container>): Elements {
    match p
    case Some(c) => st.(parent := st.parent[e := c])
    case None => st.(parent := st.parent - {e})
  }

  /** The decimal digits of `n`, as Java's string concatenation writes an `int`. */
  function NatToString(n: nat): (s: string)
    ensures |s| > 0
    ensures forall i :: 0 <= i < |s| ==> '0' <= s[i] <= '9'
  {
    if n < 10 then [Digit(n)] else NatToString(n / 10) + [Digit(n % 10)]
  }

  function Digit(d: nat): (c: char)
    requires d < 10
    ensures '0' <= c <= '9' && DigitValue(c) == d
  {
    ['0', '1', '2', '3', '4', '5', '6', '7', '8', '9'][d]
  }

  /** The value of a decimal digit character. */
  function DigitValue(c: char): int {
    c as int - '0' as int
  }

  /** The number a string of decimal digits spells, most significant digit first. */
  function DecimalValue(s: string): int {
    if s == [] then 0 else DecimalValue(s[..|s| - 1]) * 10 + DigitValue(s[|s| - 1])
  }

  /** `NatToString` spells its argument: reading the digits back gives `n`. */
  lemma {:induction false} NatToStringValue(n: nat)
    ensures DecimalValue(NatToString(n)) == n
  {
    var s := NatToString(n);
    if n < 10 {
      assert s[..|s| - 1] == [];
    } else {
      NatToStringValue(n / 10);
      assert s[..|s| - 1] == NatToString(n / 10);
    }
  }

  /** Java writes no leading zero: only the number 0 starts with the digit '0', and it is that digit alone. */
  lemma {:induction false} NatToStringNoLeadingZero(n: nat)
    ensures NatToString(n)[0] == '0' ==> n == 0
    ensures |NatToString(n)| == 1 || NatToString(n)[0] != '0'
  {
    if n >= 10 {
      NatToStringNoLeadingZero(n / 10);
      assert NatToString(n)[0] == NatToString(n / 10)[0];
    }
  }

  /** Different indices give different generated ids, so no two supplied elements share one. */
  lemma GeneratedIdsDiffer(st: Elements, owner: MenuElement, j: nat, k: nat)
    requires j != k
    ensures GeneratedId(st, owner, j) != GeneratedId(st, owner, k)
  {
    var prefix := JavaText(IdOf(st, owner)) + ".";
    if GeneratedId(st, owner, j) == GeneratedId(st, owner, k) {
      var gj, gk := GeneratedId(st, owner, j), GeneratedId(st, owner, k);
      assert gj[|prefix|..] == NatToString(j);
      assert gk[|prefix|..] == NatToString(k);
      NatToStringValue(j);
      NatToStringValue(k);
      assert false;
    }
  }

  /** Java's `s + ...` for a string that may be `null`: a `null` prints as "null". */
  function JavaText(s: Option<string>): string {
    match s
    case Some(t) => t
    case None => "null"
  }

  /** True when an element id is `null` or empty, so that a generated one is needed. */
  predicate NeedsId(id: Option<string>) {
    id.None? || |id.value| < 1
  }

  /** The id generated for the `j`-th element supplied by `owner`. */
  function GeneratedId(st: Elements, owner: MenuElement, j: nat): string {
    JavaText(IdOf(st, owner)) + "." + NatToString(j)
  }

  /** One pass of the inner loop: give element `e` (at index `j`) an id if it lacks one, then the owner's parent. */
  function AssignOne(st: Elements, owner: MenuElement, e: MenuElement, j: nat): Elements {
    var st1 := if NeedsId(IdOf(st, e)) then st.(elementId := st.elementId[e := GeneratedId(st, owner, j)]) else st;
    WithParent(st1, e, ParentOf(st1, owner))
  }

  /** The first `n` passes of the inner loop over `mel`. */
  function AssignAll(st: Elements, owner: MenuElement, mel: seq<MenuElement>, n: nat): Elements
    requires n <= |mel|
  {
    if n == 0 then st else AssignOne(AssignAll(st, owner, mel, n - 1), owner, mel[n - 1], n - 1)
  }

  /** The renderer calls of the inner loop, one per supplied element. */
  function ProcessActions(mel: seq<MenuElement>): (r: seq<Action>)
    ensures |r| == |mel| && forall j :: 0 <= j < |mel| ==> r[j] == ProcessedElement(mel[j])
  {
    if mel == [] then [] else ProcessActions(mel[..|mel| - 1]) + [ProcessedElement(mel[|mel| - 1])]
  }

  /** The inputs that come from code outside the model. */
  datatype Environment = Environment(
    /** the object the contribution factory creates for an element */
    create: MenuElement -> Contribution,
    /** the elements a contribution's @AboutToShow method supplies */
    aboutToShow: (Contribution, MenuElement) -> seq<MenuElement>)

  /** The contribution object of a dynamic element: the cached one, or a newly created one that is then cached. */
  function EnsureObject(st: Elements, acts: seq<Action>, child: MenuElement, env: Environment)
    : (Elements, seq<Action>, Contribution)
  {
    if child in st.contributionObject then (st, acts, st.contributionObject[child])
    else
      var c := env.create(child);
      (st.(contributionObject := st.contributionObject[child := c]), acts + [CreatedContribution(child, child.contributionUri)], c)
  }

  /** Pass a previously stored non-empty list to removal, then drop the storage key. */
  function ClearStored(st: Elements, acts: seq<Action>, child: MenuElement): (Elements, seq<Action>) {
    var data := DataOf(st, child);
    var acts1 := if DynamicElementStorageKey in data && |data[DynamicElementStorageKey]| > 0
                 then acts + [RemovedContributions(data[DynamicElementStorageKey])] else acts;
    (st.(transientData := st.transientData[child := data - {DynamicElementStorageKey}]), acts1)
  }

  /** Store `mel` under the storage key of `child`. */
  function Store(st: Elements, child: MenuElement, mel: seq<MenuElement>): Elements {
    st.(transientData := st.transientData[child := DataOf(st, child)[DynamicElementStorageKey := mel]])
  }

  /** The contribution object used for `child`, and the elements its @AboutToShow method supplies. */
  function Supplied(st: Elements, acts: seq<Action>, child: MenuElement, env: Environment): seq<MenuElement> {
    env.aboutToShow(EnsureObject(st, acts, child, env).2, child)
  }

  /** One pass of the outer loop of `processDynamicElements`. */
  function ProcessChild(st: Elements, acts: seq<Action>, child: MenuElement, env: Environment)
    : (Elements, seq<Action>)
  {
    if !child.dynamic then (st, acts)
    else
      var (st1, acts1, contribution) := EnsureObject(st, acts, child, env);
      var mel := env.aboutToShow(contribution, child);
      var (st2, acts2) := ClearStored(st1, acts1 + [InvokedAboutToShow(contribution, child)], child);
      (Store(AssignAll(st2, child, mel, |mel|), child, mel), acts2 + ProcessActions(mel))
  }

  /** The outer loop of `processDynamicElements` over the menu's children `cs`, in order. */
  function ProcessChildren(st: Elements, acts: seq<Action>, cs: seq<MenuElement>, env: Environment)
    : (Elements, seq<Action>)
  {
    if cs == [] then (st, acts)
    else
      var prev := ProcessChildren(st, acts, cs[..|cs| - 1], env);
      ProcessChild(prev.0, prev.1, cs[|cs| - 1], env)
  }

  ghost predicate Distinct(mel: seq<MenuElement>) {
    forall i, j :: 0 <= i < j < |mel| ==> mel[i] != mel[j]
  }

  /** The inner loop changes only ids and parents. */
  lemma {:induction false} AssignAllFrame(st: Elements, owner: MenuElement, mel: seq<MenuElement>, n: nat)
    requires n <= |mel|
    ensures AssignAll(st, owner, mel, n).contributionObject == st.contributionObject
    ensures AssignAll(st, owner, mel, n).transientData == st.transientData
  {
    if n > 0 {
      AssignAllFrame(st, owner, mel, n - 1);
    }
  }

  /** One pass of the inner loop touches only element `e`. */
  lemma AssignOneEffect(st: Elements, owner: MenuElement, e: MenuElement, j: nat)
    requires owner != e
    ensures var r := AssignOne(st, owner, e, j);
            IdOf(r, e) == (if NeedsId(IdOf(st, e)) then Some(GeneratedId(st, owner, j)) else IdOf(st, e)) &&
            ParentOf(r, e) == ParentOf(st, owner) &&
            forall x :: x != e ==> IdOf(r, x) == IdOf(st, x) && ParentOf(r, x) == ParentOf(st, x)
  {
  }

  /**
   * For distinct supplied elements that do not include the owner: the `j`-th
   * one keeps a non-empty id and otherwise gets "<owner id>.<j>", each gets
   * the owner's parent, and no other element changes its id or parent.
   */
  lemma {:induction false} AssignAllIdsAndParents(st: Elements, owner: MenuElement, mel: seq<MenuElement>, n: nat)
    requires n <= |mel|
    requires owner !in mel && Distinct(mel)
    ensures var r := AssignAll(st, owner, mel, n);
            forall j :: 0 <= j < n ==>
              IdOf(r, mel[j]) == (if NeedsId(IdOf(st, mel[j])) then Some(GeneratedId(st, owner, j)) else IdOf(st, mel[j])) &&
              ParentOf(r, mel[j]) == ParentOf(st, owner)
    ensures var r := AssignAll(st, owner, mel, n);
            forall x :: x !in mel[..n] ==> IdOf(r, x) == IdOf(st, x) && ParentOf(r, x) == ParentOf(st, x)
  {
    forall j | 0 <= j < n
      ensures var r := AssignAll(st, owner, mel, n);
              IdOf(r, mel[j]) == (if NeedsId(IdOf(st, mel[j])) then Some(GeneratedId(st, owner, j)) else IdOf(st, mel[j])) &&
              ParentOf(r, mel[j]) == ParentOf(st, owner)
    {
      AssignAllAt(st, owner, mel, n, j);
    }
    forall x | x !in mel[..n]
      ensures var r := AssignAll(st, owner, mel, n);
              IdOf(r, x) == IdOf(st, x) && ParentOf(r, x) == ParentOf(st, x)
    {
      AssignAllUntouched(st, owner, mel, n, x);
    }
  }

  /** An element that is not among the first `n` supplied ones keeps its id and parent. */
  lemma {:induction false} AssignAllUntouched(st: Elements, owner: MenuElement, mel: seq<MenuElement>, n: nat, x: MenuElement)
    requires n <= |mel| && x !in mel[..n]
    ensures IdOf(AssignAll(st, owner, mel, n), x) == IdOf(st, x)
    ensures ParentOf(AssignAll(st, owner, mel, n), x) == ParentOf(st, x)
  {
    if n > 0 {
      assert mel[..n] == mel[..n - 1] + [mel[n - 1]];
      AssignAllUntouched(st, owner, mel, n - 1, x);
      var e := mel[n - 1];
      if owner != e {
        AssignOneEffect(AssignAll(st, owner, mel, n - 1), owner, e, n - 1);
      }
    }
  }

  /** The `j`-th supplied element after the first `n >= j + 1` passes. */
  lemma {:induction false} AssignAllAt(st: Elements, owner: MenuElement, mel: seq<MenuElement>, n: nat, j: nat)
    requires j < n <= |mel|
    requires owner !in mel && Distinct(mel)
    ensures var r := AssignAll(st, owner, mel, n);
            IdOf(r, mel[j]) == (if NeedsId(IdOf(st, mel[j])) then Some(GeneratedId(st, owner, j)) else IdOf(st, mel[j])) &&
            ParentOf(r, mel[j]) == ParentOf(st, owner)
  {
    var prev := AssignAll(st, owner, mel, n - 1);
    var e := mel[n - 1];
    AssignOneEffect(prev, owner, e, n - 1);
    assert owner !in mel[..n - 1];
    AssignAllUntouched(st, owner, mel, n - 1, owner);
    if j == n - 1 {
      var pre := mel[..n - 1];
      assert e !in pre by {
        forall k | 0 <= k < |pre| ensures pre[k] != e {
          assert pre[k] == mel[k] && mel[k] != mel[n - 1];
        }
      }
      AssignAllUntouched(st, owner, mel, n - 1, e);
    } else {
      AssignAllAt(st, owner, mel, n - 1, j);
      assert mel[j] != e;
    }
  }

  /** The contribution object is created only when there is none, and is then cached on the element. */
  lemma ContributionCached(st: Elements, acts: seq<Action>, child: MenuElement, env: Environment)
    requires child.dynamic
    ensures var r := ProcessChild(st, acts, child, env).0;
            (child in st.contributionObject ==> r.contributionObject == st.contributionObject) &&
            (child !in st.contributionObject ==> r.contributionObject == st.contributionObject[child := env.create(child)])
  {
    var (st1, acts1, c) := EnsureObject(st, acts, child, env);
    var mel := env.aboutToShow(c, child);
    var (st2, acts2) := ClearStored(st1, acts1 + [InvokedAboutToShow(c, child)], child);
    AssignAllFrame(st2, child, mel, |mel|);
  }

  /** The contribution factory is called, and the call recorded, exactly when no object is cached on the element. */
  lemma FactoryCalledOnlyWhenUncached(st: Elements, acts: seq<Action>, child: MenuElement, env: Environment)
    requires child.dynamic
    ensures var racts := ProcessChild(st, acts, child, env).1;
            |acts| <= |racts| && racts[..|acts|] == acts &&
            ((exists k :: |acts| <= k < |racts| && racts[k].CreatedContribution?) <==> child !in st.contributionObject)
  {
    var (st1, acts1, c) := EnsureObject(st, acts, child, env);
    var mel := env.aboutToShow(c, child);
    var (st2, acts2) := ClearStored(st1, acts1 + [InvokedAboutToShow(c, child)], child);
    var racts := acts2 + ProcessActions(mel);
    assert racts == ProcessChild(st, acts, child, env).1;
    var created: seq<Action> := if child in st.contributionObject then [] else [CreatedContribution(child, child.contributionUri)];
    assert acts1 == acts + created;
    var data := DataOf(st1, child);
    var removed: seq<Action> := if DynamicElementStorageKey in data && |data[DynamicElementStorageKey]| > 0
                                then [RemovedContributions(data[DynamicElementStorageKey])] else [];
    var later := [InvokedAboutToShow(c, child)] + removed + ProcessActions(mel);
    assert racts == acts + created + later;
    assert forall k :: 0 <= k < |later| ==> !later[k].CreatedContribution?;
    if child in st.contributionObject {
      forall k | |acts| <= k < |racts|
        ensures !racts[k].CreatedContribution?
      {
        assert racts[k] == later[k - |acts|];
      }
    } else {
      assert racts[|acts|].CreatedContribution?;
    }
  }

  /** Afterwards the storage key holds exactly the supplied list; the other transient keys are untouched. */
  lemma StorageReplaced(st: Elements, acts: seq<Action>, child: MenuElement, env: Environment)
    requires child.dynamic
    ensures DataOf(ProcessChild(st, acts, child, env).0, child) ==
              DataOf(st, child)[DynamicElementStorageKey := Supplied(st, acts, child, env)]
  {
    var (st1, acts1, c) := EnsureObject(st, acts, child, env);
    var mel := env.aboutToShow(c, child);
    var (st2, acts2) := ClearStored(st1, acts1 + [InvokedAboutToShow(c, child)], child);
    AssignAllFrame(st2, child, mel, |mel|);
    assert DataOf(st1, child) == DataOf(st, child);
    assert DataOf(st2, child) == DataOf(st, child) - {DynamicElementStorageKey};
  }

  /** A previously stored non-empty list, and only such a list, is passed to removal; earlier actions are kept. */
  lemma PreviousListRemoved(st: Elements, acts: seq<Action>, child: MenuElement, env: Environment)
    requires child.dynamic
    ensures var racts := ProcessChild(st, acts, child, env).1;
            var stored := DataOf(st, child);
            acts <= racts &&
            ((DynamicElementStorageKey in stored && |stored[DynamicElementStorageKey]| > 0) <==>
               exists k :: |acts| <= k < |racts| && racts[k].RemovedContributions?) &&
            (forall k :: |acts| <= k < |racts| && racts[k].RemovedContributions? ==>
               racts[k].elements == stored[DynamicElementStorageKey])
  {
    var (st1, acts1, c) := EnsureObject(st, acts, child, env);
    var mel := env.aboutToShow(c, child);
    var pre := acts1 + [InvokedAboutToShow(c, child)];
    var (st2, acts2) := ClearStored(st1, pre, child);
    var racts := acts2 + ProcessActions(mel);
    assert DataOf(st1, child) == DataOf(st, child);
    assert forall k :: |acts| <= k < |pre| ==> !pre[k].RemovedContributions?;
    assert forall k :: |acts2| <= k < |racts| ==> !racts[k].RemovedContributions?;
    assert forall k :: |acts| <= k < |pre| ==> racts[k] == pre[k];
    var stored := DataOf(st, child);
    if DynamicElementStorageKey in stored && |stored[DynamicElementStorageKey]| > 0 {
      assert racts[|pre|] == RemovedContributions(stored[DynamicElementStorageKey]);
    } else {
      assert acts2 == pre;
    }
  }

  /** The supplied elements' ids and parents after one dynamic contribution is processed. */
  lemma SuppliedElementsAssigned(st: Elements, acts: seq<Action>, child: MenuElement, env: Environment)
    requires child.dynamic
    requires child !in Supplied(st, acts, child, env) && Distinct(Supplied(st, acts, child, env))
    ensures var r := ProcessChild(st, acts, child, env).0;
            var mel := Supplied(st, acts, child, env);
            forall j :: 0 <= j < |mel| ==>
              IdOf(r, mel[j]) == (if NeedsId(IdOf(st, mel[j])) then Some(JavaText(IdOf(st, child)) + "." + NatToString(j))
                                  else IdOf(st, mel[j])) &&
              ParentOf(r, mel[j]) == ParentOf(st, child)
  {
    var (st1, acts1, c) := EnsureObject(st, acts, child, env);
    var mel := env.aboutToShow(c, child);
    var (st2, acts2) := ClearStored(st1, acts1 + [InvokedAboutToShow(c, child)], child);
    AssignAllIdsAndParents(st2, child, mel, |mel|);
    assert forall x :: IdOf(st2, x) == IdOf(st, x) && ParentOf(st2, x) == ParentOf(st, x);
    var r3 := AssignAll(st2, child, mel, |mel|);
    assert forall x :: IdOf(Store(r3, child, mel), x) == IdOf(r3, x) && ParentOf(Store(r3, child, mel), x) == ParentOf(r3, x);
  }

  /** The children of a menu that are dynamic contributions, in order. */
  function DynamicOnly(cs: seq<MenuElement>): (r: seq<MenuElement>)
    ensures forall e :: e in r <==> e in cs && e.dynamic
  {
    if cs == [] then []
    else
      var last := cs[|cs| - 1];
      assert cs == cs[..|cs| - 1] + [last];
      DynamicOnly(cs[..|cs| - 1]) + (if last.dynamic then [last] else [])
  }

  /** Children that are not dynamic contributions are left alone: dropping them changes nothing. */
  lemma {:induction false} OnlyDynamicChildrenMatter(st: Elements, acts: seq<Action>, cs: seq<MenuElement>, env: Environment)
    ensures ProcessChildren(st, acts, cs, env) == ProcessChildren(st, acts, DynamicOnly(cs), env)
  {
    if cs != [] {
      var init, last := cs[..|cs| - 1], cs[|cs| - 1];
      OnlyDynamicChildrenMatter(st, acts, init, env);
      var p := ProcessChildren(st, acts, init, env);
      assert ProcessChildren(st, acts, cs, env) == ProcessChild(p.0, p.1, last, env);
      var d := DynamicOnly(cs);
      if last.dynamic {
        assert d == DynamicOnly(init) + [last];
        assert d[..|d| - 1] == DynamicOnly(init);
        assert ProcessChildren(st, acts, d, env) == ProcessChild(p.0, p.1, last, env);
      } else {
        assert d == DynamicOnly(init);
      }
    }
  }

  /** The mutable attributes of the menu model's elements. */
  class MenuModel {
    var elementId: map<MenuElement, string>
    var parent: map<MenuElement, Container>
    var contributionObject: map<MenuElement, Contribution>
    var transientData: map<MenuElement, map<string, seq<MenuElement>>>

    function State(): Elements
      reads this
    {
      Elements(elementId, parent, contributionObject, transientData)
    }

    constructor (st: Elements)
      ensures State() == st
    {
      elementId, parent, contributionObject, transientData := st.elementId, st.parent, st.contributionObject, st.transientData;
    }
  }

  class MenuManagerShowProcessor {
    var pendingCleanup: map<Menu, Runnable>
    var actions: seq<Action>

    constructor ()
      ensures pendingCleanup == map[] && actions == []
    {
      pendingCleanup := map[];
      actions := [];
    }

    /** `cleanUp`: remove `menu`'s pending task, if any, and run it once. */
    method CleanUp(menu: Menu)
      modifies this
      ensures old(pendingCleanup) == map[] ==> pendingCleanup == old(pendingCleanup) && actions == old(actions)
      ensures pendingCleanup == old(pendingCleanup) - {menu}
      ensures actions == old(actions) +
                (if menu in old(pendingCleanup) then [RanCleanUp(old(pendingCleanup)[menu])] else [])
    {
      if pendingCleanup == map[] {
        return;
      }
      var task: Option<Runnable> := if menu in pendingCleanup then Some(pendingCleanup[menu]) else None;
      pendingCleanup := pendingCleanup - {menu};
      if task.Some? {
        actions := actions + [RanCleanUp(task.value)];
      }
    }

    /** `processDynamicElements` over the menu's children, as the outer loop of the Java code. */
    method ProcessDynamicElements(children: seq<MenuElement>, model: MenuModel, env: Environment)
      modifies this, model
      ensures pendingCleanup == old(pendingCleanup)
      ensures (model.State(), actions) == ProcessChildren(old(model.State()), old(actions), children, env)
    {
      for i := 0 to |children|
        invariant pendingCleanup == old(pendingCleanup)
        invariant (model.State(), actions) == ProcessChildren(old(model.State()), old(actions), children[..i], env)
      {
        assert children[..i + 1][..i] == children[..i];
        var current := children[i];
        if current.dynamic {
          ProcessDynamicElement(current, model, env);
        }
      }
      assert children[..|children|] == children;
    }

    /** The body of the outer loop for one dynamic contribution `current`. */
    method ProcessDynamicElement(current: MenuElement, model: MenuModel, env: Environment)
      requires current.dynamic
      modifies this, model
      ensures pendingCleanup == old(pendingCleanup)
      ensures (model.State(), actions) == ProcessChild(old(model.State()), old(actions), current, env)
    {
      var contribution: Contribution;
      if current in model.contributionObject {
        contribution := model.contributionObject[current];
      } else {
        contribution := env.create(current);
        actions := actions + [CreatedContribution(current, current.contributionUri)];
        model.contributionObject := model.contributionObject[current := contribution];
      }
      var mel := env.aboutToShow(contribution, current);
      actions := actions + [InvokedAboutToShow(contribution, current)];

      var storage := if current in model.transientData then model.transientData[current] else map[];
      if DynamicElementStorageKey in storage && |storage[DynamicElementStorageKey]| > 0 {
        actions := actions + [RemovedContributions(storage[DynamicElementStorageKey])];
      }
      model.transientData := model.transientData[current := storage - {DynamicElementStorageKey}];

      AssignContributedElements(current, mel, model);
      storage := if current in model.transientData then model.transientData[current] else map[];
      model.transientData := model.transientData[current := storage[DynamicElementStorageKey := mel]];
    }

    /** The inner loop: ids for the supplied elements that lack one, the owner's parent for all of them. */
    method AssignContributedElements(current: MenuElement, mel: seq<MenuElement>, model: MenuModel)
      modifies this, model
      ensures pendingCleanup == old(pendingCleanup)
      ensures model.State() == AssignAll(old(model.State()), current, mel, |mel|)
      ensures actions == old(actions) + ProcessActions(mel)
    {
      for j := 0 to |mel|
        invariant model.State() == AssignAll(old(model.State()), current, mel, j)
        invariant actions == old(actions) + ProcessActions(mel[..j])
        invariant pendingCleanup == old(pendingCleanup)
      {
        var menuElement := mel[j];
        AssignElement(current, menuElement, j, model);
        assert mel[..j + 1][..j] == mel[..j];
        actions := actions + [ProcessedElement(menuElement)];
      }
      assert mel[..|mel|] == mel;
    }

    /** One pass of the inner loop: an id for `menuElement` if it lacks one, then the owner's parent. */
    method AssignElement(current: MenuElement, menuElement: MenuElement, j: nat, model: MenuModel)
      modifies model
      ensures model.State() == AssignOne(old(model.State()), current, menuElement, j)
    {
      if menuElement !in model.elementId || |model.elementId[menuElement]| < 1 {
        var ownerId := if current in model.elementId then model.elementId[current] else "null";
        model.elementId := model.elementId[menuElement := ownerId + "." + NatToString(j)];
      }
      if current in model.parent {
        model.parent := model.parent[menuElement := model.parent[current]];
      } else {
        model.parent := model.parent - {menuElement};
      }
    }
  }
}
