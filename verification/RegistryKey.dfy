/** The watches of one source and their list, changed in place. */
module RegistryKey {
  import opened Basics
  import opened Watch
  import opened Registry
  import opened RegistryRuns

  class Key {
    var watches: seq<State>
    var list: seq<nat>

    constructor ()
      ensures Contents() == NONE && Valid()
    {
      watches, list := [], [];
      new;
      NoneSound();
    }

    function Contents(): Reg
      reads this
    {
      Reg(watches, list)
    }

    ghost predicate Valid()
      reads this
    {
      Sound(Contents())
    }

    /** The first half of `stop`: off the list. */
    method Unlist(k: nat)
      requires k < |list|
      modifies `list
      ensures list == Cut(old(list), k)
    {
      list := list[..k] + list[k + 1..];
    }

    /** The filter that a new subscription starts with. */
    method Filter() returns (kept: seq<nat>)
      requires InRange(Contents())
      modifies this
      ensures (Contents(), kept) == FilterStop(old(Contents()), 0, [])
    {
      kept := [];
      var n := |list|;
      var k := 0;
      while k < n
        invariant 0 <= k <= n && |list| <= n && InRange(Contents())
        invariant FilterStop(Contents(), k, kept) == FilterStop(old(Contents()), 0, [])
      {
        if k < |list| {
          var w := list[k];
          if watches[w].now == Retrying {
            Unlist(k);
            watches := watches[w := DoUnsubscribe(watches[w])];
          } else {
            kept := kept + [w];
          }
        }
        k := k + 1;
      }
    }

    /** `legacyWatch` with plain arguments and a port or a queue: the new watch
        and the stop of it. */
    method Join() returns (w: nat)
      requires Valid()
      modifies this
      ensures Valid() && Contents() == Next(old(Contents()), Do(Act.Join)) && w == |old(watches)|
    {
      hide FilterStop, Sound, DoStart;
      SoundInRange(Contents());
      JoinSound(Contents());
      FilterShape(Contents(), 0, []);
      w := |watches|;
      var kept := Filter();
      watches := watches + [DoStart(OLD_FORM, FRESH, Subscribed, STAY)];
      list := kept + [w];
    }

    /** A watch's `stop`, called by the widget. */
    method Stop(w: nat)
      requires Valid() && w < |watches|
      modifies this
      ensures Valid() && Contents() == Next(old(Contents()), Do(Act.Stop(w)))
    {
      hide Sound, DoUnsubscribe;
      SoundInRange(Contents());
      StopSound(Contents(), w);
      var k := IndexOf(list, w);
      if k < |list| {
        Unlist(k);
      }
      watches := watches[w := DoUnsubscribe(watches[w])];
    }
  }
}
