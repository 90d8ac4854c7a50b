/** The per-element sort data of rpmtsOrder (struct tsortInfo_s, lib/order.cc:26-52).

    The source keeps one vector sortInfo and points into it; here an element is
    its position in that vector, each struct member is one sequence over the
    positions, and a NULL tsortInfo is -1. */
module OrderState {
  import opened OrderGraph

  datatype ElementType = Added | Removed | Restored

  /** The sense bits of include/rpm/rpmds.h:22-53 that ordering looks at; a
      rpmsenseFlags word is the set of its bits. */
  datatype Sense =
    | PostTrans | PreReq | PreTrans | Interp | ScriptPre | ScriptPost | ScriptPreUn | ScriptPostUn | ScriptVerify
    | FindRequires | MissingOk | PreUnTrans | PostUnTrans | RpmLib | Keyring | Config | Meta

  type Flags = set<Sense>

  datatype Relation = Relation(suc: nat, flags: Flags)

  datatype Scc = Scc(count: int, members: seq<nat>)

  class Tsort {
    const types: seq<ElementType>
    const colors: seq<nat>
    var count: seq<int>
    var qcnt: seq<int>
    var reqx: seq<int>
    var relations: seq<seq<Relation>>
    var forward: seq<seq<Relation>>
    var suc: seq<int>
    var sccIdx: seq<int>
    var lowlink: seq<int>

    constructor (types: seq<ElementType>, colors: seq<nat>)
      requires |types| == |colors|
      ensures this.types == types && this.colors == colors
      ensures count == qcnt == reqx == sccIdx == lowlink == seq(|types|, i => 0)
      ensures relations == forward == seq(|types|, i => [])
      ensures suc == seq(|types|, i => -1)
    {
      this.types, this.colors := types, colors;
      count, qcnt, reqx := seq(|types|, i => 0), seq(|types|, i => 0), seq(|types|, i => 0);
      sccIdx, lowlink := seq(|types|, i => 0), seq(|types|, i => 0);
      relations, forward := seq(|types|, i => []), seq(|types|, i => []);
      suc := seq(|types|, i => -1);
    }
  }

  ghost function Sucs(rels: seq<Relation>): seq<nat> {
    seq(|rels|, i requires 0 <= i < |rels| => rels[i].suc)
  }

  /** The graph the relation lists describe. */
  ghost function GraphOf(rels: seq<seq<Relation>>): Graph {
    seq(|rels|, u requires 0 <= u < |rels| => Sucs(rels[u]))
  }
}
