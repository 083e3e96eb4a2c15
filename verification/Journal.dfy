/** The block writes an operation hands to log_write, in order. */
module Journal {
  import opened Blocks

  datatype Put = Put(bno: nat, data: Block)

  /** The blocks after the writes. */
  function Redo(d: seq<Block>, ps: seq<Put>): (r: seq<Block>)
    ensures |r| == |d|
  {
    if ps == [] then d
    else
      var e, p := Redo(d, ps[..|ps| - 1]), ps[|ps| - 1];
      if p.bno < |d| then e[p.bno := p.data] else e
  }

  /** The blocks written. */
  function Bnos(ps: seq<Put>): (s: set<nat>) {
    if ps == [] then {} else Bnos(ps[..|ps| - 1]) + {ps[|ps| - 1].bno}
  }

  lemma OnePut(d: seq<Block>, ps: seq<Put>, p: Put)
    requires p.bno < |d|
    ensures Redo(d, ps + [p]) == Redo(d, ps)[p.bno := p.data] && Bnos(ps + [p]) == Bnos(ps) + {p.bno}
  {
    assert (ps + [p])[..|ps|] == ps;
  }
}
