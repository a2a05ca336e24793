/** Small wrapper types and facts shared by every module of the model. */
module Common {

  /** An optional value: `None` stands for JavaScript's `null`/`undefined`
      or for an empty form input. */
  datatype Option<+T> = None | Some(value: T) {

    /** The wrapped value, or `default` when there is none. */
    function GetOr(default: T): T {
      match this
      case Some(v) => v
      case None => default
    }
  }

  /** An error map holding exactly the keys that fail `fails` is empty
      exactly when no key fails. */
  lemma EmptyIffNoneFails<K, V>(errors: map<K, V>, fails: K -> bool)
    requires forall k :: k in errors <==> fails(k)
    ensures errors == map[] <==> forall k :: !fails(k)
  {
    if errors != map[] {
      var k :| k in errors;
      assert fails(k);
    }
  }
}
