/** Fixed text with holes: how the printed records are laid out, and how long they are. */
module Template {

  /** Literals and values laid alternately: lits[0] vals[0] lits[1] … */
  function Weave(lits: seq<string>, vals: seq<string>): string
    requires |lits| == |vals| + 1
  {
    if vals == [] then lits[0] else lits[0] + (vals[0] + Weave(lits[1..], vals[1..]))
  }

  function TotalLength(texts: seq<string>): nat {
    if texts == [] then 0 else |texts[0]| + TotalLength(texts[1..])
  }

  lemma {:induction false} WeaveLength(lits: seq<string>, vals: seq<string>)
    requires |lits| == |vals| + 1
    ensures |Weave(lits, vals)| == TotalLength(lits) + TotalLength(vals)
  {
    if vals != [] { WeaveLength(lits[1..], vals[1..]); }
    else { assert TotalLength(lits[1..]) == 0; }
  }

  lemma {:induction false} BoundedTotal(texts: seq<string>, bound: nat)
    requires forall i :: 0 <= i < |texts| ==> |texts[i]| <= bound
    ensures TotalLength(texts) <= bound * |texts|
  {
    if texts != [] {
      BoundedTotal(texts[1..], bound);
      assert bound * |texts| == bound + bound * (|texts| - 1);
    }
  }
}
