/** The abstract queue every container in queue.ts implements: its contents in
    storage order (oldest first), and the two ordering policies that decide which
    element a dequeue takes. */
module QueueSpec {

  /** A dequeue or a peek yields a string, or nothing (`undefined` in queue.ts). */
  datatype Option<T> = None | Some(value: T)

  /** The ordering policy (`enum Type` in queue.ts). */
  datatype Type = FIFO | LIFO

  /** The element a dequeue under policy `t` takes from contents `s`. */
  function Pick(s: seq<string>, t: Type): (r: Option<string>)
    ensures r == None <==> s == []
    ensures r.Some? ==> r.value in s
  {
    if s == [] then None
    else match t
      case FIFO => Some(s[0])
      case LIFO => Some(s[|s| - 1])
  }

  /** What is left of contents `s` after that dequeue; nothing changes when `s` is empty. */
  function Drop(s: seq<string>, t: Type): (r: seq<string>)
    ensures s == [] ==> r == []
    ensures s != [] ==> |r| == |s| - 1
    ensures s != [] && t == FIFO ==> s == [Pick(s, t).value] + r
    ensures s != [] && t == LIFO ==> s == r + [Pick(s, t).value]
  {
    if s == [] then []
    else match t
      case FIFO => s[1..]
      case LIFO => s[..|s| - 1]
  }
}
