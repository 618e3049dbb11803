/**
 * The vector store and the embedding service as the core sees them. ChromaDB and Ollama are not
 * modelled; their answers reach the core as oracle parameters of these types.
 */
module Store {
  /** An embedding vector. */
  type Vector = seq<real>

  /**
   * A chunk's metadata dictionary. ChromaDB's `None` and `{}` are both the empty map: the core
   * only tests a metadata for truthiness and reads its `source` key.
   */
  type Meta = map<string, string>

  /**
   * One reply of the store to a similarity query: the documents and metadatas found for the
   * query vector, or the message of the exception raised while reading them.
   */
  datatype QueryReply = Hits(documents: seq<string>, metadatas: seq<Meta>) | Raised(message: string)
}
