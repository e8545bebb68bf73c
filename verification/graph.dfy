/** Directed graphs over vertices 0 .. |adj|-1, each with its list of successors,
    as graph/adjacent_list.c and graph/matrix_graph.c represent them. */
module Graphs {
  type Adjacency = seq<seq<int>>

  datatype Color = White | Grey | Black

  ghost predicate Graph(adj: Adjacency) {
    forall x, i :: 0 <= x < |adj| && 0 <= i < |adj[x]| ==> 0 <= adj[x][i] < |adj|
  }

  ghost predicate Edge(adj: Adjacency, x: int, y: int) {
    0 <= x < |adj| && y in adj[x]
  }

  /** x stands in the list before the first y. */
  ghost predicate Before(list: seq<int>, x: int, y: int) {
    exists a :: 0 <= a < |list| && list[a] == x && y !in list[..a + 1]
  }

  /** path visits its vertices along edges. */
  ghost predicate Walk(adj: Adjacency, path: seq<int>) {
    |path| > 0 && forall i :: 0 <= i < |path| - 1 ==> Edge(adj, path[i], path[i + 1])
  }
}
