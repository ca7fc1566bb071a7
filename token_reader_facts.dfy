/** Properties of the token cursor that the parser's backtracking relies on. */
module TokenStreamFacts {
  import opened Wrappers
  import opened LexerTypes
  import opened TokenStream

  /** Reading a token and then unreading it leaves the cursor where it was. */
  lemma ReadUnread(ts: seq<Token>, p: nat)
    requires p < |ts|
    ensures AfterUnread(AfterRead(ts, p)) == p
    ensures At(ts, AfterUnread(AfterRead(ts, p))) == At(ts, p)
  {
  }

  /** A position saved while a token was still ahead is restored exactly. */
  lemma SaveRestore(ts: seq<Token>, saved: nat, current: nat)
    requires saved < |ts|
    ensures AfterSetPosition(ts, current, saved) == saved
  {
  }

  /** No cursor operation takes the position past the end of the stream. */
  lemma PositionStaysInRange(ts: seq<Token>, p: nat, target: nat)
    requires p <= |ts|
    ensures AfterRead(ts, p) <= |ts|
    ensures AfterUnread(p) <= |ts|
    ensures AfterSetPosition(ts, p, target) <= |ts|
  {
  }
}
