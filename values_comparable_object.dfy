/** An attribute bag whose equality is equality of its attribute dictionary.

    The object's `__dict__` is the field `attributes`; setting an item
    updates it in place, reading an item that was never set is a KeyError,
    and two instances are equal exactly when their dictionaries are. Values
    are strings: entry comparison, the bag's only user, stores string fields.
 */
module ValuesComparable {

  /** What reading an item gives: its value, or Python's KeyError. */
  datatype Item = Item(value: string) | KeyError

  class ValuesComparableObject {
    /** The instance's `__dict__`. */
    var attributes: map<string, string>

    /** A new instance has no attributes: every key reads as KeyError. */
    constructor ()
      ensures attributes == map[]
      ensures forall key :: GetItem(key) == KeyError
    {
      attributes := map[];
    }

    /** `obj[key] = value`: binds `key`, leaves every other key as it was. */
    method SetItem(key: string, value: string)
      modifies this
      ensures attributes == old(attributes)[key := value]
      ensures GetItem(key) == Item(value)
      ensures forall k :: k != key ==> GetItem(k) == old(GetItem(k))
    {
      attributes := attributes[key := value];
    }

    /** `obj[key]`: the bound value, or KeyError for a key never set. */
    function GetItem(key: string): (r: Item)
      reads this
      ensures r.Item? <==> key in attributes
      ensures key in attributes ==> r.value == attributes[key]
    {
      if key in attributes then Item(attributes[key]) else KeyError
    }

    /** `self == other`: `other` is an instance of this class with the same dictionary. */
    predicate Equals(other: object?)
      reads this, other
      ensures other == this ==> Equals(other)
      ensures Equals(other) ==> other is ValuesComparableObject
    {
      other is ValuesComparableObject && (other as ValuesComparableObject).attributes == attributes
    }
  }

  /** Equality is symmetric among instances of the class. */
  lemma EqualsSymmetric(a: ValuesComparableObject, b: ValuesComparableObject)
    ensures a.Equals(b) <==> b.Equals(a)
  {
  }

  /** Equality is transitive among instances of the class. */
  lemma EqualsTransitive(a: ValuesComparableObject, b: ValuesComparableObject, c: ValuesComparableObject)
    requires a.Equals(b) && b.Equals(c)
    ensures a.Equals(c)
  {
  }

  /** Two instances are equal exactly when every key reads the same in both. */
  lemma EqualsIffSameItems(a: ValuesComparableObject, b: ValuesComparableObject)
    ensures a.Equals(b) <==> forall k :: a.GetItem(k) == b.GetItem(k)
  {
    if forall k :: a.GetItem(k) == b.GetItem(k) {
      assert forall k :: k in a.attributes <==> k in b.attributes by {
        forall k ensures k in a.attributes <==> k in b.attributes {
          assert a.GetItem(k).Item? <==> b.GetItem(k).Item?;
        }
      }
      assert forall k :: k in a.attributes ==> a.attributes[k] == b.attributes[k] by {
        forall k | k in a.attributes ensures a.attributes[k] == b.attributes[k] {
          assert a.GetItem(k) == b.GetItem(k);
        }
      }
    }
  }
}
