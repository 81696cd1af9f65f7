/**
 * The network vocabulary the harness shares with the simulator library it drives: nodes, links,
 * flows and flow-completion records. Only the shape of these values is modelled; identifiers,
 * byte counts, bandwidths and nanosecond times are unsigned integers.
 */
module Net {

  /** Whether a node is an end host or a switch. */
  datatype NodeKind = Host | Switch

  /** A node of the topology, identified by `id`. */
  datatype Node = Node(id: nat, kind: NodeKind)

  /** A link between nodes `a` and `b`, with bandwidth in bits per second and delay in nanoseconds. */
  datatype Link = Link(a: nat, b: nat, bandwidth: nat, delay: nat)

  /** A flow of `size` bytes from host `src` to host `dst`, starting at `start` nanoseconds. */
  datatype Flow = Flow(id: nat, src: nat, dst: nat, size: nat, start: nat)

  /** A simulator's verdict on one flow: its completion time and the ideal (unloaded) one. */
  datatype FctRecord = FctRecord(id: nat, size: nat, start: nat, fct: nat, ideal: nat)
}
