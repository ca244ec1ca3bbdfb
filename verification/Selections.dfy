/** What it is to select some of a sequence, in order. */
module Selections {

  /** `t` is `s` at these places, one after the other. */
  ghost predicate Picks<T>(s: seq<T>, places: seq<nat>, t: seq<T>) {
    && |places| == |t| && (forall j | 0 <= j < |t| :: places[j] < |s| && t[j] == s[places[j]])
    && forall j, k | 0 <= j < k < |places| :: places[j] < places[k]
  }

  /** `t` is what `s` holds at the places in `kept`, and nothing else, in order. */
  ghost predicate Selects<T>(s: seq<T>, t: seq<T>, kept: set<nat>) {
    exists places: seq<nat> :: Picks(s, places, t) && forall i: nat :: i in places <==> i in kept
  }

  lemma SelectsNothing<T>()
    ensures Selects<T>([], [], {})
  {
    assert Picks<T>([], [], []);
  }

  lemma SelectsOneMore<T>(s: seq<T>, t: seq<T>, kept: set<nat>, x: T)
    requires Selects(s, t, kept)
    ensures Selects(s + [x], t + [x], kept + {|s|})
  {
    var places: seq<nat> :| Picks(s, places, t) && forall i: nat :: i in places <==> i in kept;
    var more: seq<nat> := places + [|s|];
    assert Picks(s + [x], more, t + [x]);
  }

  lemma SelectsNoMore<T>(s: seq<T>, t: seq<T>, kept: set<nat>, x: T)
    requires Selects(s, t, kept)
    ensures Selects(s + [x], t, kept)
  {
    var places: seq<nat> :| Picks(s, places, t) && forall i: nat :: i in places <==> i in kept;
    assert Picks(s + [x], places, t);
  }
}
