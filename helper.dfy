/**
 * The static class `Helper` of Helper.cs: two process-wide caches, the main
 * camera and the timed-wait objects handed to coroutines.
 *
 * The static fields become the fields of one `Helper` object. The engine's
 * pieces are parameters: `Camera.main` is the camera the engine would resolve
 * now, and `destroyed` is the set of cameras the engine has destroyed (Unity's
 * overloaded `== null` is true of those as well as of a null reference).
 */
module Helper {
  import opened Wrappers

  /** A `WaitForSeconds` object: an opaque handle that remembers its duration. */
  class WaitForSeconds<K> {
    const seconds: K

    constructor (seconds: K)
      ensures this.seconds == seconds
    {
      this.seconds := seconds;
    }
  }

  /** Unity's `== null` test on an object reference. */
  predicate IsNull<C>(c: Option<C>, destroyed: set<C>)
  {
    c.None? || c.value in destroyed
  }

  /** The camera the `Camera` getter returns and keeps, given the cached field. */
  function ResolveCamera<C>(cached: Option<C>, main: Option<C>, destroyed: set<C>): (r: Option<C>)
    ensures !IsNull(cached, destroyed) ==> r == cached
    ensures IsNull(cached, destroyed) ==> r == main
  {
    if IsNull(cached, destroyed) then main else cached
  }

  /** Once the getter holds a live camera, later calls return that same camera as
      long as it has not been destroyed since, whatever `Camera.main` has become
      and whatever else the engine has destroyed in the meantime. */
  lemma ResolveIsStable<C>(cached: Option<C>, main: Option<C>, destroyed: set<C>,
                           laterMain: Option<C>, laterDestroyed: set<C>)
    requires !IsNull(ResolveCamera(cached, main, destroyed), destroyed)
    requires ResolveCamera(cached, main, destroyed).value !in laterDestroyed
    ensures ResolveCamera(ResolveCamera(cached, main, destroyed), laterMain, laterDestroyed)
            == ResolveCamera(cached, main, destroyed)
  {
  }

  /** The getter returns a null (or destroyed) camera exactly when both the cached
      camera and the engine's main camera are null or destroyed. */
  lemma ResolveNullOnlyWhenBothNull<C>(cached: Option<C>, main: Option<C>, destroyed: set<C>)
    ensures IsNull(ResolveCamera(cached, main, destroyed), destroyed)
            <==> IsNull(cached, destroyed) && IsNull(main, destroyed)
  {
  }

  class Helper<K(==), C(==)> {
    var camera: Option<C>
    var waitDictionary: map<K, WaitForSeconds<K>>

    /** Every cached handle was built for the duration it is filed under. */
    ghost predicate Valid()
      reads this
    {
      forall t :: t in waitDictionary ==> waitDictionary[t].seconds == t
    }

    /** Both caches start empty. */
    constructor ()
      ensures Valid()
      ensures camera == None && waitDictionary == map[]
    {
      camera := None;
      waitDictionary := map[];
    }

    /** The `Camera` getter: re-resolves from the engine only when the cached
        camera is null or destroyed, stores the result and returns it. */
    method Camera(main: Option<C>, destroyed: set<C>) returns (c: Option<C>)
      modifies this`camera
      ensures c == camera
      ensures camera == ResolveCamera(old(camera), main, destroyed)
    {
      if IsNull(camera, destroyed) {
        camera := main;
      }
      c := camera;
    }

    /** `GetWait`: a hit returns the cached handle and changes nothing; a miss
        builds a new handle, files it under `time` and touches no other key. */
    method GetWait(time: K) returns (wait: WaitForSeconds<K>)
      requires Valid()
      modifies this`waitDictionary
      ensures Valid()
      ensures time in waitDictionary && wait == waitDictionary[time] && wait.seconds == time
      ensures time in old(waitDictionary) ==> waitDictionary == old(waitDictionary)
      ensures time !in old(waitDictionary) ==>
                fresh(wait) && waitDictionary == old(waitDictionary)[time := wait]
    {
      if time in waitDictionary {
        return waitDictionary[time];
      }
      var created := new WaitForSeconds(time);
      waitDictionary := waitDictionary[time := created];
      wait := waitDictionary[time];
    }

    /** Distinct durations never share a handle. */
    lemma HandlesAreDistinct(t1: K, t2: K)
      requires Valid()
      requires t1 in waitDictionary && t2 in waitDictionary && t1 != t2
      ensures waitDictionary[t1] != waitDictionary[t2]
    {
    }
  }
}
