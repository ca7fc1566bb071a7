/**
 * The token cursor the parser backtracks with: `SimpleTokenReader` of
 * craft/src/lexer/simple_lexer.rs, a token vector and a read position.
 */
module TokenStream {
  import opened Wrappers
  import opened LexerTypes

  /** The token at position `p`, or none past the end: what `peek` returns. */
  function At(ts: seq<Token>, p: nat): (t: Option<Token>)
    ensures t.Some? <==> p < |ts|
    ensures t.Some? ==> t.value == ts[p]
  {
    if p < |ts| then Some(ts[p]) else None
  }

  /** The position after `read`: one further, unless the stream is exhausted. */
  function AfterRead(ts: seq<Token>, p: nat): (q: nat)
    ensures p < |ts| ==> q == p + 1
    ensures p >= |ts| ==> q == p
  {
    if p < |ts| then p + 1 else p
  }

  /** The position after `unread`: one back, saturating at zero. */
  function AfterUnread(p: nat): (q: nat)
    ensures p > 0 ==> q + 1 == p
    ensures p == 0 ==> q == 0
  {
    if p > 0 then p - 1 else p
  }

  /** The position after `set_position(target)`: targets at or past the end are ignored. */
  function AfterSetPosition(ts: seq<Token>, p: nat, target: nat): (q: nat)
    ensures target < |ts| ==> q == target
    ensures target >= |ts| ==> q == p
  {
    if target < |ts| then target else p
  }

  class SimpleTokenReader {
    const tokens: seq<Token>
    var pos: nat

    ghost predicate Valid()
      reads this
    {
      pos <= |tokens|
    }

    constructor (tokens: seq<Token>)
      ensures Valid()
      ensures this.tokens == tokens && pos == 0
    {
      this.tokens := tokens;
      pos := 0;
    }

    /** Returns the next token and moves past it; none, without moving, at the end. */
    method Read() returns (t: Option<Token>)
      requires Valid()
      modifies this`pos
      ensures Valid()
      ensures t == At(tokens, old(pos))
      ensures pos == AfterRead(tokens, old(pos))
    {
      if pos < |tokens| {
        pos := pos + 1;
        t := Some(tokens[pos - 1]);
      } else {
        t := None;
      }
    }

    /** Returns the token `Read` would return, without moving. */
    method Peek() returns (t: Option<Token>)
      requires Valid()
      ensures t.Some? <==> pos < |tokens|
      ensures t.Some? ==> t.value == tokens[pos]
    {
      if pos < |tokens| {
        t := Some(tokens[pos]);
      } else {
        t := None;
      }
    }

    /** Steps back one token, so that the last token read is read again. */
    method Unread()
      requires Valid()
      modifies this`pos
      ensures Valid()
      ensures pos == AfterUnread(old(pos))
    {
      if pos > 0 {
        pos := pos - 1;
      }
    }

    method GetPosition() returns (p: nat)
      requires Valid()
      ensures p == pos && p <= |tokens|
    {
      p := pos;
    }

    /** Moves the cursor to `position` when it names a token; otherwise does nothing. */
    method SetPosition(position: nat)
      requires Valid()
      modifies this`pos
      ensures Valid()
      ensures pos == AfterSetPosition(tokens, old(pos), position)
    {
      if position < |tokens| {
        pos := position;
      }
    }
  }
}
