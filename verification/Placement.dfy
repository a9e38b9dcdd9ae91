/** Removing the resource provider of an offboarded host. */
module Placement {
  import opened Basics

  datatype ConsumerReply = ListError | Holds(allocations: nat)

  /** Placement's answers: the consumers listed for the provider, what each of them holds,
      and which deletions fail. */
  datatype Replies = Replies(listed: Option<set<string>>, consumers: map<string, ConsumerReply>,
                             deleteFails: set<string>, providerDeleteFails: bool)

  predicate HoldsNothing(rs: Replies, c: string) {
    c in rs.consumers && rs.consumers[c] == Holds(0)
  }

  /** The cleanup goes through. */
  predicate Clean(rs: Replies) {
    && rs.listed.Some?
    && (forall c :: c in rs.listed.value ==> HoldsNothing(rs, c) && c !in rs.deleteFails)
    && !rs.providerDeleteFails
  }

  /** The cleanup goes through exactly if the consumers can be listed, each of them is known to hold
      no allocation and can be cleared, and the provider can be deleted. */
  lemma CleanExactly(rs: Replies)
    ensures Clean(rs) <==> && rs.listed.Some? && !rs.providerDeleteFails
                           && (forall c :: c in rs.listed.value ==> c in rs.consumers)
                           && (forall c :: c in rs.listed.value ==> rs.consumers[c] == Holds(0) && c !in rs.deleteFails)
  {
  }

  class PlacementClient {
    var cleared: set<string>        // consumers whose allocations were deleted
    var providerDeleted: bool

    /** Checks and clears the listed consumers in an arbitrary order, then deletes the
        provider. The verdict does not depend on that order; a cleanup that goes through has
        cleared every listed consumer. */
    method CleanupResourceProvider(known: bool, rs: Replies) returns (ok: bool)
      requires !providerDeleted
      modifies this
      ensures ok <==> !known || Clean(rs)
      ensures providerDeleted <==> known && Clean(rs)
      ensures providerDeleted ==> rs.listed.value <= cleared
      ensures providerDeleted ==> forall c :: c in rs.listed.value ==> c in rs.consumers && rs.consumers[c] == Holds(0)
      ensures old(cleared) <= cleared
      ensures forall c :: c in cleared && c !in old(cleared) ==>
                rs.listed.Some? && c in rs.listed.value && c in rs.consumers && rs.consumers[c] == Holds(0)
    {
      if !known {
        return true;
      }
      if rs.listed.None? {
        return false;
      }
      var todo := rs.listed.value;
      while todo != {}
        invariant todo <= rs.listed.value && !providerDeleted
        invariant old(cleared) <= cleared && rs.listed.value - todo <= cleared
        invariant forall c :: c in rs.listed.value - todo ==> HoldsNothing(rs, c) && c !in rs.deleteFails
        invariant forall c :: c in cleared && c !in old(cleared) ==> c in rs.listed.value && HoldsNothing(rs, c)
        decreases todo
      {
        var c :| c in todo;
        todo := todo - {c};
        if c !in rs.consumers || rs.consumers[c].ListError? {
          return false;
        }
        if rs.consumers[c].allocations > 0 {
          return false;
        }
        if c in rs.deleteFails {
          return false;
        }
        cleared := cleared + {c};
      }
      if rs.providerDeleteFails {
        return false;
      }
      providerDeleted := true;
      return true;
    }
  }
}
