/**
 * Which keys are shown unmasked (src/hooks/useApiKeyVisibility.js): a set of
 * key ids that `toggleKeyVisibility` flips one id at a time. The source copies
 * the set, edits the copy and stores it; a Dafny set is a value, so the copy
 * is the local `next` and the stored set is only replaced, never edited.
 */
module KeyVisibility {

  /** The set after flipping `keyId`. */
  function Toggled(visible: set<nat>, keyId: nat): (r: set<nat>)
    ensures keyId in r <==> keyId !in visible
    ensures forall other :: other != keyId ==> (other in r <==> other in visible)
  {
    if keyId in visible then visible - {keyId} else visible + {keyId}
  }

  /** Flipping the same id twice restores the set. */
  lemma ToggledTwice(visible: set<nat>, keyId: nat)
    ensures Toggled(Toggled(visible, keyId), keyId) == visible
  {
  }

  /** Flips on different ids commute. */
  lemma ToggledCommute(visible: set<nat>, a: nat, b: nat)
    ensures Toggled(Toggled(visible, a), b) == Toggled(Toggled(visible, b), a)
  {
  }

  class VisibilityHook {
    var visibleKeys: set<nat>

    /** Every key starts masked. */
    constructor ()
      ensures visibleKeys == {}
    {
      visibleKeys := {};
    }

    /** `toggleKeyVisibility(keyId)`. */
    method ToggleKeyVisibility(keyId: nat)
      modifies this
      ensures visibleKeys == Toggled(old(visibleKeys), keyId)
      ensures keyId in old(visibleKeys) ==> visibleKeys == old(visibleKeys) - {keyId}
      ensures keyId !in old(visibleKeys) ==> visibleKeys == old(visibleKeys) + {keyId}
    {
      var next := visibleKeys;
      if keyId in next {
        next := next - {keyId};
      } else {
        next := next + {keyId};
      }
      visibleKeys := next;
    }
  }
}
