/** What the pipeline and the builders need of an algorithm's block builder. */
module BlockBuilding {
  import opened Basics
  import opened Encoding
  import opened IndexWriter
  import opened Routing

  // The entries of a block, built; None if they cannot be.
  type BlockBuilder = seq<Entry> -> Option<Block>

  // A built block carries its keys and one entry of payload for each; no keys always build.
  ghost predicate Builds(c: Config, build: BlockBuilder) {
    && build([]).Some?
    && forall es :: build(es).Some? ==>
         build(es).value.numKeys == |es| && |build(es).value.payloads| == Offset(|es|, c.EntrySize())
  }

  ghost predicate AllBuild(build: BlockBuilder, blocks: seq<seq<Entry>>) {
    forall b :: 0 <= b < |blocks| ==> build(blocks[b]).Some?
  }

  ghost function Built(build: BlockBuilder, blocks: seq<seq<Entry>>): (r: seq<Block>)
    requires AllBuild(build, blocks)
    ensures |r| == |blocks|
  {
    seq(|blocks|, b requires 0 <= b < |blocks| => build(blocks[b]).value)
  }
}
