/**
 * The root of the e4 application model (MApplicationImpl): two lazily
 * created containment lists, `windows` and `command`, and the reflective
 * feature accessors that dispatch on a feature id.
 */
module ApplicationModel {
  import opened Wrappers

  /** A model object held in one of the application's lists. */
  datatype ModelObject = ModelObject(id: nat)

  /**
   * A containment list. Like every EMF object list it is unique: `addAll`
   * adds each object that is not already in the list, in order.
   */
  class EList {
    var items: seq<ModelObject>

    constructor ()
      ensures items == []
    {
      items := [];
    }

    method Clear()
      modifies this
      ensures items == []
    {
      items := [];
    }

    method AddAll(xs: seq<ModelObject>)
      modifies this
      ensures items == AppendUnique(old(items), xs)
    {
      for i := 0 to |xs|
        invariant items == AppendUnique(old(items), xs[..i])
      {
        AppendUniqueSnoc(old(items), xs[..i], xs[i]);
        assert xs[..i + 1] == xs[..i] + [xs[i]];
        if xs[i] !in items {
          items := items + [xs[i]];
        }
      }
      assert xs[..|xs|] == xs;
    }
  }

  /** `a` followed by each element of `xs` that is not already present, in order. */
  function AppendUnique(a: seq<ModelObject>, xs: seq<ModelObject>): (r: seq<ModelObject>)
    ensures a <= r && |r| <= |a| + |xs|
    decreases |xs|
  {
    if xs == [] then a
    else
      var init := AppendUnique(a, xs[..|xs| - 1]);
      var x := xs[|xs| - 1];
      if x in init then init else init + [x]
  }

  lemma AppendUniqueSnoc(a: seq<ModelObject>, xs: seq<ModelObject>, x: ModelObject)
    ensures AppendUnique(a, xs + [x]) ==
              var init := AppendUnique(a, xs); if x in init then init else init + [x]
  {
    assert (xs + [x])[..|xs + [x]| - 1] == xs;
  }

  ghost predicate NoDuplicates(s: seq<ModelObject>) {
    forall i, j :: 0 <= i < j < |s| ==> s[i] != s[j]
  }

  /** A unique append keeps `a`, holds exactly the elements of both, and adds no duplicates. */
  lemma {:induction false} AppendUniqueContents(a: seq<ModelObject>, xs: seq<ModelObject>)
    requires NoDuplicates(a)
    ensures NoDuplicates(AppendUnique(a, xs))
    ensures a <= AppendUnique(a, xs)
    ensures forall y :: y in AppendUnique(a, xs) <==> y in a || y in xs
    decreases |xs|
  {
    if xs != [] {
      var init := xs[..|xs| - 1];
      AppendUniqueContents(a, init);
      assert xs == init + [xs[|xs| - 1]];
      assert forall y :: y in xs <==> y in init || y == xs[|xs| - 1];
    }
  }

  /** Appending a duplicate-free list to an empty list gives that list back unchanged. */
  lemma {:induction false} AppendUniqueToEmpty(xs: seq<ModelObject>)
    requires NoDuplicates(xs)
    ensures AppendUnique([], xs) == xs
    decreases |xs|
  {
    if xs != [] {
      var init := xs[..|xs| - 1];
      var x := xs[|xs| - 1];
      assert NoDuplicates(init);
      AppendUniqueToEmpty(init);
      assert x !in init by {
        forall k | 0 <= k < |init| ensures init[k] != x { assert xs[k] != xs[|xs| - 1]; }
      }
      assert init + [x] == xs;
    }
  }

  /** The features the application declares; every other id belongs to its superclass. */
  datatype Feature = Windows | Command | Inherited(id: nat)

  /** What `eGet` returns: one of the two lists, or the superclass's value of an inherited feature. */
  datatype FeatureValue = ListValue(list: EList) | InheritedValue(id: nat)

  /**
   * The `Object` handed to `eSet`: a collection value, a containment list
   * object (possibly one of the application's own), `null`, or an object
   * that is not a collection.
   */
  datatype NewValue = Collection(xs: seq<ModelObject>) | ListObject(list: EList) | NullValue | NotACollection

  /** How `eSet` ends: normally, or with the exception Java throws after the list was cleared. */
  datatype Outcome = Completed | NullPointerThrown | ClassCastThrown

  /** A reflective call passed on to the superclass, recorded. */
  datatype SuperCall = SuperSet(id: nat, value: NewValue) | SuperUnset(id: nat)

  class MApplication {
    /** `null` until the first call of the matching getter. */
    var windows: EList?
    var command: EList?
    /** The reflective calls handed to the superclass, in order. */
    var superCalls: seq<SuperCall>

    /** Once created, the two lists are different objects. */
    ghost predicate Valid()
      reads this
    {
      windows != null && command != null ==> windows != command
    }

    constructor ()
      ensures Valid() && windows == null && command == null && superCalls == []
    {
      windows := null;
      command := null;
      superCalls := [];
    }

    /** `getWindows`: create the list on the first call; afterwards always return that same list. */
    method GetWindows() returns (l: EList)
      requires Valid()
      modifies this
      ensures Valid()
      ensures windows == l
      ensures old(windows) != null ==> l == old(windows) && l.items == old(l.items)
      ensures old(windows) == null ==> fresh(l) && l.items == []
      ensures command == old(command) && superCalls == old(superCalls)
    {
      if windows == null {
        windows := new EList();
      }
      l := windows;
    }

    /** `getCommand`: the same lazy creation, for the command list. */
    method GetCommand() returns (l: EList)
      requires Valid()
      modifies this
      ensures Valid()
      ensures command == l
      ensures old(command) != null ==> l == old(command) && l.items == old(l.items)
      ensures old(command) == null ==> fresh(l) && l.items == []
      ensures windows == old(windows) && superCalls == old(superCalls)
    {
      if command == null {
        command := new EList();
      }
      l := command;
    }

    /**
     * `eIsSet`: for the two features, whether the list exists and holds
     * something (asking creates nothing); `None` for a feature the
     * superclass answers.
     */
    function EIsSet(f: Feature): (r: Option<bool>)
      reads this, windows, command
      ensures r.Some? <==> !f.Inherited?
      ensures f == Windows ==> (r == Some(true) <==> windows != null && windows.items != [])
      ensures f == Command ==> (r == Some(true) <==> command != null && command.items != [])
    {
      match f
      case Windows => Some(windows != null && |windows.items| > 0)
      case Command => Some(command != null && |command.items| > 0)
      case Inherited(_) => None
    }

    /** `eGet`: the two features answer with the getter's list; others go to the superclass. */
    method EGet(f: Feature) returns (v: FeatureValue)
      requires Valid()
      modifies this
      ensures Valid()
      ensures f == Windows ==> windows != null && v == ListValue(windows) &&
                               (old(windows) != null ==> windows == old(windows) && windows.items == old(windows.items)) &&
                               (old(windows) == null ==> fresh(windows) && windows.items == [])
      ensures f == Command ==> command != null && v == ListValue(command) &&
                               (old(command) != null ==> command == old(command) && command.items == old(command.items)) &&
                               (old(command) == null ==> fresh(command) && command.items == [])
      ensures f != Windows ==> windows == old(windows)
      ensures f != Command ==> command == old(command)
      ensures f.Inherited? ==> v == InheritedValue(f.id)
      ensures superCalls == old(superCalls)
    {
      match f
      case Windows =>
        var l := GetWindows();
        v := ListValue(l);
      case Command =>
        var l := GetCommand();
        v := ListValue(l);
      case Inherited(id) =>
        v := InheritedValue(id);
    }

    /**
     * `eSet`: clear the feature's list, then add all of `newValue`; the other
     * list is untouched. `addAll` reads its argument after the clear, so a
     * list set to itself ends empty; `null` and a non-collection throw once
     * the list has been cleared.
     */
    method ESet(f: Feature, newValue: NewValue) returns (outcome: Outcome)
      requires Valid()
      modifies this, windows, command
      ensures Valid()
      ensures f == Windows ==> windows != null && (old(windows) != null ==> windows == old(windows)) &&
                               windows.items == AddedAfterClear(newValue, windows, old(ValueItems(newValue)))
      ensures f == Command ==> command != null && (old(command) != null ==> command == old(command)) &&
                               command.items == AddedAfterClear(newValue, command, old(ValueItems(newValue)))
      ensures f != Windows ==> windows == old(windows) && (windows != null ==> windows.items == old(windows.items))
      ensures f != Command ==> command == old(command) && (command != null ==> command.items == old(command.items))
      ensures f.Inherited? ==> superCalls == old(superCalls) + [SuperSet(f.id, newValue)] && outcome == Completed
      ensures !f.Inherited? ==> superCalls == old(superCalls) && outcome == OutcomeOf(newValue)
    {
      match f
      case Windows =>
        var l := GetWindows();
        outcome := ClearAndAdd(l, newValue);
      case Command =>
        var l := GetCommand();
        outcome := ClearAndAdd(l, newValue);
      case Inherited(id) =>
        superCalls := superCalls + [SuperSet(id, newValue)];
        outcome := Completed;
    }

    /** `eUnset`: clear the feature's list (creating it if need be); the other list is untouched. */
    method EUnset(f: Feature)
      requires Valid()
      modifies this, windows, command
      ensures Valid()
      ensures f == Windows ==> windows != null && (old(windows) != null ==> windows == old(windows)) &&
                               windows.items == [] && EIsSet(Windows) == Some(false)
      ensures f == Command ==> command != null && (old(command) != null ==> command == old(command)) &&
                               command.items == [] && EIsSet(Command) == Some(false)
      ensures f != Windows ==> windows == old(windows) && (windows != null ==> windows.items == old(windows.items))
      ensures f != Command ==> command == old(command) && (command != null ==> command.items == old(command.items))
      ensures f.Inherited? ==> superCalls == old(superCalls) + [SuperUnset(f.id)]
      ensures !f.Inherited? ==> superCalls == old(superCalls)
    {
      match f
      case Windows =>
        var l := GetWindows();
        l.Clear();
      case Command =>
        var l := GetCommand();
        l.Clear();
      case Inherited(id) =>
        superCalls := superCalls + [SuperUnset(id)];
    }

  }

  /** The objects a value holds, read as `addAll` would before anything is cleared. */
  function ValueItems(v: NewValue): seq<ModelObject>
    reads if v.ListObject? then {v.list} else {}
  {
    match v
    case Collection(xs) => xs
    case ListObject(l) => l.items
    case NullValue => []
    case NotACollection => []
  }

  /**
   * What `clear(); addAll(v)` leaves in `target`, given the objects `before`
   * that `v` held before the clear: nothing when `v` is `target` itself (the
   * clear emptied it) or when `addAll` throws, otherwise the unique append
   * of `before` to the empty list.
   */
  function AddedAfterClear(v: NewValue, target: EList, before: seq<ModelObject>): (r: seq<ModelObject>)
    ensures v.ListObject? && v.list == target ==> r == []
    ensures forall y :: y in r <==> (v.Collection? || (v.ListObject? && v.list != target)) && y in before
  {
    AppendUniqueContents([], before);
    match v
    case Collection(_) => AppendUnique([], before)
    case ListObject(l) => if l == target then [] else AppendUnique([], before)
    case NullValue => []
    case NotACollection => []
  }

  /** The exception `eSet` on a list feature ends with, if any. */
  function OutcomeOf(v: NewValue): (r: Outcome)
    ensures r == Completed <==> v.Collection? || v.ListObject?
  {
    match v
    case NullValue => NullPointerThrown
    case NotACollection => ClassCastThrown
    case _ => Completed
  }

  /** The body of one list case of `eSet`: clear, then cast the value and add all of it. */
  method ClearAndAdd(l: EList, newValue: NewValue) returns (outcome: Outcome)
    modifies l
    ensures l.items == AddedAfterClear(newValue, l, old(ValueItems(newValue)))
    ensures outcome == OutcomeOf(newValue)
  {
    l.Clear();
    match newValue
    case Collection(xs) =>
      l.AddAll(xs);
      outcome := Completed;
    case ListObject(src) =>
      l.AddAll(src.items);
      outcome := Completed;
    case NullValue =>
      outcome := NullPointerThrown;
    case NotACollection =>
      outcome := ClassCastThrown;
  }

  /** After `eSet` with a duplicate-free collection value, the list holds exactly that value in order. */
  method SetThenRead(app: MApplication, f: Feature, v: seq<ModelObject>) returns (l: EList)
    requires app.Valid() && !f.Inherited?
    requires NoDuplicates(v)
    modifies app, app.windows, app.command
    ensures l.items == v
    ensures app.EIsSet(f) == Some(v != [])
  {
    var outcome := app.ESet(f, Collection(v));
    AppendUniqueToEmpty(v);
    var r := app.EGet(f);
    l := r.list;
  }

  /** `eSet(f, eGet(f))` empties the list: `clear` runs before `addAll` reads its own argument. */
  method SetToOwnList(app: MApplication, f: Feature) returns (l: EList)
    requires app.Valid() && !f.Inherited?
    modifies app, app.windows, app.command
    ensures l.items == []
    ensures app.EIsSet(f) == Some(false)
  {
    var current := app.EGet(f);
    var outcome := app.ESet(f, ListObject(current.list));
    var r := app.EGet(f);
    l := r.list;
  }
}
