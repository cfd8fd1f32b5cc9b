/** The edges of a drawn graph. */
module DagEdges {

  datatype Edge = Edge(source: string, target: string)
}
