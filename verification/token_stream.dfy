/**
 * The parser's cursor over an End-terminated token list: `next` hands out
 * tokens one by one and stays on the final `End`, and one saved position
 * can be restored.
 */
module TokenStreams {
  import opened Wrappers
  import opened Errors
  import opened Tokens

  /** The cursor position after one `next` from `i`: unchanged on `End`, else one further. */
  function Step(ts: seq<Token>, i: nat): (j: nat)
    requires i < |ts| && ts[|ts| - 1].End?
    ensures j < |ts|
    ensures ts[i].End? ==> j == i
    ensures !ts[i].End? ==> j == i + 1
  {
    if ts[i].End? then i else i + 1
  }

  /** The cursor position after `k` calls of `next` from `i`. */
  function Advance(ts: seq<Token>, i: nat, k: nat): (j: nat)
    requires i < |ts| && ts[|ts| - 1].End?
    ensures i <= j < |ts|
    decreases k
  {
    if k == 0 then i else Advance(ts, Step(ts, i), k - 1)
  }

  /** Once on `End`, any number of further `next` calls stay there. */
  lemma {:induction false} AdvanceSticky(ts: seq<Token>, i: nat, k: nat)
    requires i < |ts| && ts[|ts| - 1].End? && ts[i].End?
    ensures Advance(ts, i, k) == i
    decreases k
  {
    if k > 0 {
      AdvanceSticky(ts, i, k - 1);
    }
  }

  /**
   * On a list with `End` only last, `k` calls of `next` move the cursor
   * `k` places, but never past the final `End`.
   */
  lemma {:induction false} AdvanceClamped(ts: seq<Token>, i: nat, k: nat)
    requires EndTerminated(ts) && i < |ts|
    ensures Advance(ts, i, k) == if i + k < |ts| - 1 then i + k else |ts| - 1
    decreases k
  {
    if k > 0 {
      if ts[i].End? {
        AdvanceSticky(ts, i, k);
      } else {
        AdvanceClamped(ts, i + 1, k - 1);
      }
    }
  }

  /**
   * The two assertions `TokenStream::new` makes before building a stream:
   * the list is non-empty, and its last token is `End`.
   */
  function StreamCheck(ts: seq<Token>): (r: CompileResult<()>)
    ensures r.Ok? <==> |ts| > 0 && ts[|ts| - 1].End?
    ensures |ts| == 0 ==> r == Err(Panic("assertion failed: tokens.len() > 0"))
    ensures |ts| > 0 && !ts[|ts| - 1].End? ==> r == Err(Panic("assertion failed: tokens.last().unwrap().is_end()"))
  {
    if |ts| == 0 then Err(Panic("assertion failed: tokens.len() > 0"))
    else if !ts[|ts| - 1].End? then Err(Panic("assertion failed: tokens.last().unwrap().is_end()"))
    else Ok(())
  }

  /** A cursor over `tokens`, which is never modified. */
  class TokenStream {
    const tokens: seq<Token>
    var index: nat
    var savedIndex: Option<nat>

    ghost predicate Valid()
      reads this
    {
      |tokens| > 0 && tokens[|tokens| - 1].End? && index < |tokens|
      && (savedIndex.Some? ==> savedIndex.value < |tokens|)
    }

    /** `TokenStream::new`: the list must be non-empty and end with `End`. */
    constructor (tokens: seq<Token>)
      requires |tokens| > 0 && tokens[|tokens| - 1].End?
      ensures Valid()
      ensures this.tokens == tokens && index == 0 && savedIndex == None
    {
      this.tokens := tokens;
      index := 0;
      savedIndex := None;
    }

    /** The token under the cursor; on the last position it is the final `End`. */
    function Current(): (t: Token)
      reads this
      requires Valid()
      ensures t == tokens[index]
      ensures index == |tokens| - 1 ==> t.End?
    {
      tokens[index]
    }

    /** Returns the current token and moves past it unless it is `End`. */
    method Next() returns (t: Token)
      requires Valid()
      modifies this
      ensures Valid()
      ensures t == old(Current())
      ensures index == Step(tokens, old(index))
      ensures savedIndex == old(savedIndex)
    {
      t := tokens[index];
      if !t.End? {
        index := index + 1;
      }
    }

    /** Overwrites the single save slot with the current position. */
    method Save()
      requires Valid()
      modifies this
      ensures Valid()
      ensures savedIndex == Some(index) && index == old(index)
    {
      savedIndex := Some(index);
    }

    /**
     * Moves the cursor back to the saved position. Without a prior save the
     * source panics ("no saved index"); here that is a `Panic` error and
     * the cursor stays where it was.
     */
    method LoadSave() returns (r: CompileResult<()>)
      requires Valid()
      modifies this
      ensures Valid()
      ensures r.Ok? <==> old(savedIndex).Some?
      ensures r.Ok? ==> index == old(savedIndex).value
      ensures r.Err? ==> r.err == Panic("no saved index") && index == old(index)
      ensures savedIndex == old(savedIndex)
    {
      if savedIndex.None? {
        return Err(Panic("no saved index"));
      }
      index := savedIndex.value;
      return Ok(());
    }
  }
}
