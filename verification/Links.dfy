/** Neighbours in a doubly linked list, as positions in the sequence of its
    elements. T is the nullable element type; nil stands for no neighbour. */
module Links {

  function Before<T>(s: seq<T>, i: nat, nil: T): T
    requires i < |s|
  {
    if i == 0 then nil else s[i - 1]
  }

  function After<T>(s: seq<T>, i: nat, nil: T): T
    requires i < |s|
  {
    if i == |s| - 1 then nil else s[i + 1]
  }

  /** The neighbours of element i once element k has been skipped. */
  function NextSkipping<T>(s: seq<T>, k: nat, i: nat, nil: T): T
    requires k < |s| && i < |s|
  {
    if i + 1 == k then After(s, k, nil) else After(s, i, nil)
  }

  function PrevSkipping<T>(s: seq<T>, k: nat, i: nat, nil: T): T
    requires k < |s| && i < |s|
  {
    if i == k + 1 then Before(s, k, nil) else Before(s, i, nil)
  }
}
