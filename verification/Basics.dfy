/** Shared vocabulary. */
module Basics {
  datatype Option<+T> = None | Some(value: T)

  /** Which HTTP session a response or a handler belongs to. */
  type SessionId = nat

  lemma Associates<T>(a: seq<T>, b: seq<T>, c: seq<T>)
    ensures (a + b) + c == a + (b + c)
  {
  }

  lemma DroppedPrefix(a: string, b: string, c: string)
    requires a + b == a + c
    ensures b == c
  {
    assert b == (a + b)[|a|..] && c == (a + c)[|a|..];
  }
}
