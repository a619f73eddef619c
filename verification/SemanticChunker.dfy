/** Chunking by a separator hierarchy whose coarsest boundaries are kept
    (ai-service/app/services/chunking/semantic_chunker.py). */
module SemanticChunker {
  import opened BaseChunker

  const DEFAULT_SEPARATORS: seq<string> := ["\n## ", "\n# ", "\n\n", "\n", "\U{3002}", "\U{FF0C}", " ", ""]

  /** The configured separators, or the default ones. */
  function Hierarchy(separators: seq<string>): (r: seq<string>)
    ensures separators != [] ==> r == separators
    ensures separators == [] ==>
              r == ["\n## ", "\n# ", "\n\n", "\n", "\U{3002}", "\U{FF0C}", " ", ""]
  {
    if separators == [] then DEFAULT_SEPARATORS else separators
  }

  /** The chunks tile the text, stay within the size, cut only where the hierarchy allows, and of an oversize text
      every part at the coarsest separator starts a chunk of its own. */
  method Split(c: Chunker, text: string, resourceId: string, metadata: map<string, MetaValue>, separators: seq<string>)
    returns (chunks: seq<Chunk>)
    requires c.Valid()
    ensures Numbered(c, chunks, PiecesOf(chunks), resourceId, metadata)
    ensures Tiles(PiecesOf(chunks), text, 0) && c.Bounded(PiecesOf(chunks))
    ensures c.CutsAllowed(PiecesOf(chunks), text, 0, Hierarchy(separators))
    ensures c.KeepsBoundaries(PiecesOf(chunks), text, 0, Hierarchy(separators))
  {
    var pieces := c.SplitText(text, 0, Hierarchy(separators), false);
    chunks := AddChunks(c, [], [], pieces, resourceId, metadata);
    assert [] + pieces == pieces;
    NumberedPieces(c, chunks, pieces, resourceId, metadata);
  }
}
