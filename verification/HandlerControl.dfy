/**
 GstHandlerControl: handlers count themselves and then check a flag; whoever tears down clears the
 flag and then waits for the count. The classes hold who owns a count; the protocol follows.
 */
module HandlerControl {

  // ----- the objects: every count has exactly one owner -----

  /** handlerEnd on the count. */
  function Decremented(count: int): (n: int)
    ensures count >= 1 ==> n == count - 1
    ensures n >= 0
  {
    if count - 1 < 0 then 0 else count - 1
  }

  class GstHandlerControl {
    var mEnabled: bool
    var mInstanceCount: int
    ghost var helpers: set<ScopeHelper>

    /** The count is the number of helpers that will still signal this object. */
    ghost predicate Valid()
      reads this, helpers
    {
      mInstanceCount == |helpers| && forall h :: h in helpers ==> h.mpController == this
    }

    constructor ()
      ensures Valid() && mEnabled && helpers == {}
    {
      mEnabled := true;
      mInstanceCount := 0;
      helpers := {};
    }

    method enable()
      modifies this`mEnabled
      ensures mEnabled
    {
      mEnabled := true;
    }

    method disable()
      modifies this`mEnabled
      ensures !mEnabled
    {
      mEnabled := false;
    }

    method getScopeHelper() returns (h: ScopeHelper)
      requires Valid()
      modifies this`mInstanceCount, this`helpers
      ensures Valid() && fresh(h) && helpers == old(helpers) + {h} && mInstanceCount == old(mInstanceCount) + 1
    {
      mInstanceCount := mInstanceCount + 1;
      h := new ScopeHelper(this);
      helpers := helpers + {h};
    }

    /** Called by the helper h that owns one of the counts. */
    method handlerEnd(ghost h: ScopeHelper)
      requires Valid() && h in helpers
      modifies this`mInstanceCount, this`helpers
      ensures Valid() && helpers == old(helpers) - {h} && mInstanceCount == Decremented(old(mInstanceCount))
    {
      CountOne(helpers, h);
      mInstanceCount := Decremented(mInstanceCount);
      helpers := helpers - {h};
    }

    /** The count of one helper becomes that of another. */
    ghost method PassOn(h: ScopeHelper, to: ScopeHelper)
      requires h in helpers && to !in helpers
      modifies this`helpers
      ensures helpers == old(helpers) - {h} + {to} && |helpers| == |old(helpers)|
    {
      CountOne(helpers, h);
      helpers := helpers - {h} + {to};
    }
  }

  lemma CountOne<T>(s: set<T>, x: T)
    requires x in s
    ensures |s - {x}| == |s| - 1 >= 0
  {
  }

  ghost function Controllers(h: ScopeHelper): set<object>
    reads h
  {
    if h.mpController == null then {} else {h.mpController}
  }

  class ScopeHelper {
    var mpController: GstHandlerControl?

    /** This helper is one its controller counts. */
    ghost predicate Counted()
      reads this, Controllers(this), if mpController == null then {} else mpController.helpers
    {
      mpController != null ==> mpController.Valid() && this in mpController.helpers
    }

    constructor (pController: GstHandlerControl?)
      ensures mpController == pController
    {
      mpController := pController;
    }

    /** The move constructor: the new object takes over the count. */
    constructor Move(other: ScopeHelper)
      requires other.Counted()
      modifies other, Controllers(other)
      ensures mpController == old(other.mpController) && other.mpController == null && Counted()
      ensures mpController != null ==>
              mpController.helpers == old(other.mpController.helpers) - {other} + {this} &&
              mpController.mInstanceCount == old(other.mpController.mInstanceCount) &&
              mpController.mEnabled == old(other.mpController.mEnabled)
    {
      mpController := other.mpController;
      new;
      if mpController != null {
        mpController.PassOn(other, this);
      }
      other.mpController := null;
    }

    /** The destructor. */
    method Destroy()
      requires Counted()
      modifies Controllers(this)
      ensures mpController != null ==>
              mpController.Valid() && mpController.helpers == old(mpController.helpers) - {this} &&
              mpController.mEnabled == old(mpController.mEnabled)
    {
      if mpController != null {
        mpController.handlerEnd(this);
      }
    }

    /** Move assignment: this object's own count is given up first, then it takes over that of other, if that is another object. */
    method Assign(other: ScopeHelper)
      requires Counted() && other.Counted()
      modifies this, other, Controllers(this), Controllers(other)
      ensures other.mpController == null && Counted()
      ensures mpController == if this == other then null else old(other.mpController)
      ensures var c := old(mpController);
              c != null && c != mpController ==> c.Valid() && c.helpers == old(c.helpers) - {this}
      ensures mpController != null ==>
              mpController.helpers == old(other.mpController.helpers) - {other} + {this} &&
              mpController.mInstanceCount ==
                old(other.mpController.mInstanceCount) - (if old(mpController) == mpController then 1 else 0)
    {
      hide Decremented;
      if mpController != null {
        mpController.handlerEnd(this);
      }
      TakeOver(other);
    }

    /** The end of an assignment, when this object owns no count any more: the count of other, if that is another object. */
    method TakeOver(other: ScopeHelper)
      requires this != other ==> other.Counted() && (other.mpController != null ==> this !in other.mpController.helpers)
      modifies this`mpController, other`mpController, if this == other then {} else Controllers(other)
      ensures other.mpController == null && Counted()
      ensures mpController == if this == other then null else old(other.mpController)
      ensures mpController != null ==>
              mpController.helpers == old(other.mpController.helpers) - {other} + {this} &&
              mpController.mInstanceCount == old(other.mpController.mInstanceCount)
    {
      if this != other && other.mpController != null {
        other.mpController.PassOn(other, this);
      }
      mpController := other.mpController;
      other.mpController := null;
    }

    /** isEnabled through the helper. */
    method returnStraightAway() returns (r: bool)
      ensures r == !(mpController != null && mpController.mEnabled)
    {
      r := !(mpController != null && mpController.mEnabled);
    }
  }
}
