/**
 * A plain JavaScript object as the model sees it: its own enumerable
 * properties, in for-in order, as a sequence of (key, value) pairs.
 * Attribute maps of parse events and request parameter objects are both
 * of this kind.
 */
module Objects {
  import opened Wrappers

  type Props = seq<(string, string)>

  /** The property names in for-in order. */
  function Keys(ps: Props): (ks: seq<string>)
    ensures |ks| == |ps|
    ensures forall i :: 0 <= i < |ps| ==> ks[i] == ps[i].0
  {
    if ps == [] then [] else Keys(ps[..|ps| - 1]) + [ps[|ps| - 1].0]
  }

  predicate Distinct(ks: seq<string>) {
    forall i, j :: 0 <= i < j < |ks| ==> ks[i] != ks[j]
  }

  /** An object never has two properties of the same name. */
  predicate DistinctKeys(ps: Props) {
    Distinct(Keys(ps))
  }

  /** `obj[k]`: the value stored under k, or None for `undefined`. */
  function Lookup(ps: Props, k: string): Option<string>
  {
    if ps == [] then None
    else if ps[|ps| - 1].0 == k then Some(ps[|ps| - 1].1)
    else Lookup(ps[..|ps| - 1], k)
  }

  /** A read finds a value exactly when k is one of the names, and the value found is one stored under k. */
  lemma {:induction false} LookupFound(ps: Props, k: string)
    ensures Lookup(ps, k).Some? <==> k in Keys(ps)
    ensures Lookup(ps, k).Some? ==> (k, Lookup(ps, k).value) in ps
  {
    if ps != [] && ps[|ps| - 1].0 != k {
      var init := ps[..|ps| - 1];
      LookupFound(init, k);
      assert Keys(ps) == Keys(init) + [ps[|ps| - 1].0];
      if Lookup(init, k).Some? {
        assert (k, Lookup(init, k).value) in init;
        assert init[..] <= ps;
      }
    }
  }

  /** `obj[k] = v`: an existing property keeps its place and takes the new value; a new property goes last. */
  function Put(ps: Props, k: string, v: string): Props
  {
    if k !in Keys(ps) then ps + [(k, v)]
    else if ps[|ps| - 1].0 == k then ps[..|ps| - 1] + [(k, v)]
    else Put(ps[..|ps| - 1], k, v) + [ps[|ps| - 1]]
  }

  /** After `obj[k] = v`, reading k gives v and every other property reads as before. */
  lemma {:induction false} LookupPut(ps: Props, k: string, v: string, k': string)
    ensures Lookup(Put(ps, k, v), k') == if k' == k then Some(v) else Lookup(ps, k')
  {
    if k !in Keys(ps) {
      assert Put(ps, k, v)[..|ps|] == ps;
    } else if ps[|ps| - 1].0 == k {
      assert Put(ps, k, v)[..|ps| - 1] == ps[..|ps| - 1];
    } else {
      var init := ps[..|ps| - 1];
      LookupPut(init, k, v, k');
      assert Put(ps, k, v)[..|Put(ps, k, v)| - 1] == Put(init, k, v);
    }
  }

  /** `obj[k] = v` leaves the order of existing names alone and appends k only when it is new. */
  lemma {:induction false} KeysPut(ps: Props, k: string, v: string)
    ensures Keys(Put(ps, k, v)) == if k in Keys(ps) then Keys(ps) else Keys(ps) + [k]
  {
    if k !in Keys(ps) {
      assert Put(ps, k, v)[..|ps|] == ps;
    } else if ps[|ps| - 1].0 == k {
      assert Put(ps, k, v)[..|ps| - 1] == ps[..|ps| - 1];
    } else {
      var init := ps[..|ps| - 1];
      KeysPut(init, k, v);
      assert Put(ps, k, v)[..|Put(ps, k, v)| - 1] == Put(init, k, v);
    }
  }

  /** Assignment keeps an object's property names distinct. */
  lemma PutKeepsDistinct(ps: Props, k: string, v: string)
    requires DistinctKeys(ps)
    ensures DistinctKeys(Put(ps, k, v))
  {
    KeysPut(ps, k, v);
  }
}
