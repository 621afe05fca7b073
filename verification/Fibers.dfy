/** Coroutines of one thread.  A context is a token for one saved point of execution; jumping to
    it uses it up and makes a token for the point left behind, which the code that continues must
    store.  The module's claim is that the right code always continues: no token is ever jumped
    to twice, and each one leads back to where its name promises. */
module Fibers {
  datatype FiberState = INIT | HOLD | EXEC | TERM | READY | EXCEPT

  type Token = nat

  /** The code that runs when a token is jumped to. */
  datatype Continuation =
    | Entry(fiber: Fiber)
    | AfterYield(fiber: Fiber)
    | AfterResume(resumer: Fiber, fiber: Fiber)
    | Unreachable

  class Fiber {
    const hasStack: bool
    var state: FiberState
    var ctx: Token
    var backCtx: Token

    constructor (hasStack: bool, state: FiberState, ctx: Token)
      ensures this.hasStack == hasStack && this.state == state && this.ctx == ctx
    {
      this.hasStack, this.state, this.ctx, backCtx := hasStack, state, ctx, 0;
    }
  }

  predicate Resumable(state: FiberState) {
    state == INIT || state == HOLD || state == READY
  }

  class FiberThread {
    var current: Fiber
    /** The saved points that have not been jumped to, by token. */
    var saved: map<Token, Continuation>
    var nextToken: Token
    ghost var fibers: set<Fiber>
    /** The tokens jumped to so far. */
    ghost var used: set<Token>
    /** From the main coroutine to the current one, each resumed by the one before it. */
    ghost var chain: seq<Fiber>

    /** The running coroutines are exactly the resume chain. */
    ghost predicate ChainValid()
      reads this, fibers
    {
      && chain != [] && chain[|chain| - 1] == current && !chain[0].hasStack
      && (forall i :: 0 <= i < |chain| ==> chain[i] in fibers && chain[i].state == EXEC)
      && (forall i, j :: 0 <= i < j < |chain| ==> chain[i] != chain[j])
      && (forall f :: f in fibers && f.state == EXEC ==> f in chain)
      && (forall f :: f in fibers && f != chain[0] ==> f.hasStack)
    }

    /** Each member's back context is the live save point of its resumer, inside its call of resume. */
    ghost predicate BackValid()
      reads this, fibers
    {
      forall i :: 0 < i < |chain| && chain[i] in fibers ==>
        chain[i].backCtx in saved && saved[chain[i].backCtx] == AfterResume(chain[i - 1], chain[i])
    }

    /** A coroutine that can be resumed continues at its own latest save point. */
    ghost predicate CtxValid()
      reads this, fibers
    {
      forall f :: f in fibers && Resumable(f.state) ==>
        f.ctx in saved && saved[f.ctx] == if f.state == INIT then Entry(f) else AfterYield(f)
    }

    ghost predicate Valid()
      reads this, fibers
    {
      && ChainValid() && BackValid() && CtxValid()
      && (forall t :: t in saved ==> t < nextToken)
      && (forall t :: t in used ==> t < nextToken && t !in saved)
    }

    /** A thread starts in its main coroutine, which has no stack of its own. */
    constructor ()
      ensures Valid() && chain == [current] && fibers == {current} && fresh(current) && !current.hasStack
    {
      var main := new Fiber(false, EXEC, 0);
      current := main;
      saved := map[];
      nextToken := 0;
      fibers := {main};
      chain := [main];
      used := {};
    }

    /** make_fcontext. */
    method MakeContext(fiber: Fiber) returns (token: Token)
      modifies this`saved, this`nextToken
      ensures token == old(nextToken) && nextToken == token + 1 && saved == old(saved)[token := Entry(fiber)]
    {
      token := nextToken;
      saved := saved[token := Entry(fiber)];
      nextToken := nextToken + 1;
    }

    method Create() returns (fiber: Fiber)
      requires Valid()
      modifies this
      ensures Valid() && fresh(fiber) && fiber.state == INIT && fiber.hasStack
      ensures fibers == old(fibers) + {fiber} && chain == old(chain) && current == old(current)
      ensures used == old(used)
    {
      hide ChainValid, BackValid, CtxValid;
      fiber := new Fiber(true, INIT, nextToken);
      var token := MakeContext(fiber);
      fibers := fibers + {fiber};
      CreatedChain(fiber);
      CreatedCtx(fiber);
    }

    /** What create changes. */
    twostate predicate Created(new fiber: Fiber)
      reads this, fibers, fiber
    {
      && fiber !in old(fibers) && fibers == old(fibers) + {fiber}
      && current == old(current) && chain == old(chain) && used == old(used)
      && nextToken == old(nextToken) + 1 && saved == old(saved)[old(nextToken) := Entry(fiber)]
      && fiber.state == INIT && fiber.ctx == old(nextToken) && fiber.hasStack
      && (forall f :: f in old(fibers) ==>
            f.state == old(f.state) && f.ctx == old(f.ctx) && f.backCtx == old(f.backCtx))
    }

    twostate lemma CreatedChain(new fiber: Fiber)
      requires old(Valid()) && Created(fiber)
      ensures ChainValid() && BackValid()
    {
    }

    twostate lemma CreatedCtx(new fiber: Fiber)
      requires old(Valid()) && Created(fiber)
      ensures CtxValid()
    {
    }

    /** The stack is laid out again; an unused entry point is simply abandoned. */
    method Reset(fiber: Fiber)
      requires Valid() && fiber in fibers && fiber.hasStack
      requires fiber.state == INIT || fiber.state == TERM || fiber.state == EXCEPT
      modifies this`saved, this`nextToken, fiber`ctx, fiber`state
      ensures Valid() && fiber.state == INIT && used == old(used)
    {
      hide ChainValid, BackValid, CtxValid;
      var token := MakeContext(fiber);
      fiber.ctx := token;
      fiber.state := INIT;
      ResetChain(fiber);
      ResetCtx(fiber);
    }

    /** What reset changes. */
    twostate predicate LaidOut(fiber: Fiber)
      reads this, fibers, fiber
    {
      && fibers == old(fibers) && current == old(current) && chain == old(chain) && used == old(used)
      && nextToken == old(nextToken) + 1 && saved == old(saved)[old(nextToken) := Entry(fiber)]
      && fiber.state == INIT && fiber.ctx == old(nextToken) && fiber.backCtx == old(fiber.backCtx)
      && (forall f :: f in fibers && f != fiber ==>
            f.state == old(f.state) && f.ctx == old(f.ctx) && f.backCtx == old(f.backCtx))
    }

    twostate lemma ResetChain(fiber: Fiber)
      requires old(Valid()) && fiber in old(fibers) && old(fiber.state) != EXEC && LaidOut(fiber)
      ensures ChainValid() && BackValid()
    {
      assert fiber !in chain;
    }

    twostate lemma ResetCtx(fiber: Fiber)
      requires old(Valid()) && fiber in old(fibers) && LaidOut(fiber)
      ensures CtxValid()
    {
    }

    /** jump_fcontext: the point left behind is saved as `left`, the target is used up and its code
        continues: on the way into a coroutine it stores the new token as the way back, on the way
        out of one it stores it as the place to come back to. */
    method Jump(target: Token, left: Continuation)
      requires target in saved && target < nextToken && !saved[target].Unreachable? && saved[target].fiber in fibers
      modifies this`saved, this`nextToken, this`current, this`used, fibers
      ensures nextToken == old(nextToken) + 1 && used == old(used) + {target}
      ensures saved == (old(saved) - {target})[old(nextToken) := left]
      ensures current == if old(saved)[target].AfterResume? then old(saved)[target].resumer else old(current)
      ensures forall f :: f in fibers ==> f.state == old(f.state)
      ensures forall f :: f in fibers ==>
                f.ctx == if old(saved)[target].AfterResume? && old(saved)[target].fiber == f
                         then old(nextToken) else old(f.ctx)
      ensures forall f :: f in fibers ==>
                f.backCtx == if !old(saved)[target].AfterResume? && old(saved)[target].fiber == f
                             then old(nextToken) else old(f.backCtx)
    {
      var here := nextToken;
      var continuation := saved[target];
      nextToken := nextToken + 1;
      saved := (saved - {target})[here := left];
      used := used + {target};
      match continuation
      case Entry(f) => f.backCtx := here;
      case AfterYield(f) => f.backCtx := here;
      case AfterResume(p, f) => f.ctx := here; current := p;
    }

    /** The current coroutine's way back leads to the one that resumed it. */
    lemma WayBack() returns (resumer: Fiber)
      requires Valid() && current.hasStack
      ensures |chain| > 1 && resumer == chain[|chain| - 2] && resumer in fibers && current in fibers
      ensures current.state == EXEC && current == chain[|chain| - 1]
      ensures current.backCtx in saved && current.backCtx < nextToken
      ensures saved[current.backCtx] == AfterResume(resumer, current)
      ensures forall i :: 0 < i < |chain| - 1 ==> chain[i].backCtx != current.backCtx
    {
      var n := |chain| - 1;
      assert chain[n] == current;
      resumer := chain[n - 1];
      forall i | 0 < i < n ensures chain[i].backCtx != current.backCtx {
        assert saved[chain[i].backCtx] == AfterResume(chain[i - 1], chain[i]);
      }
    }

    /** What has happened once `fiber` has been switched into. */
    twostate predicate SwitchedIn(fiber: Fiber)
      requires old(Valid()) && fiber in old(fibers) && old(fiber.ctx) in old(saved)
      reads this, fibers, fiber
    {
      && fibers == old(fibers) && current == fiber && chain == old(chain) + [fiber]
      && nextToken == old(nextToken) + 1
      && saved == (old(saved) - {old(fiber.ctx)})[old(nextToken) := AfterResume(old(current), fiber)]
      && (forall f :: f in fibers ==> f.state == if f == fiber then EXEC else old(f.state))
      && (forall f :: f in fibers ==> f.ctx == old(f.ctx))
      && (forall f :: f in fibers ==> f.backCtx == if f == fiber then old(nextToken) else old(f.backCtx))
    }

    twostate lemma SwitchInChain(fiber: Fiber)
      requires old(Valid()) && fiber in old(fibers) && old(fiber.ctx) in old(saved) && SwitchedIn(fiber)
      requires old(Resumable(fiber.state)) && fiber.hasStack
      ensures ChainValid()
    {
    }

    twostate lemma SwitchInBack(fiber: Fiber)
      requires old(Valid()) && fiber in old(fibers) && old(fiber.ctx) in old(saved) && SwitchedIn(fiber)
      requires old(Resumable(fiber.state))
      ensures BackValid()
    {
      forall i | 0 < i < |chain|
        ensures chain[i].backCtx in saved && saved[chain[i].backCtx] == AfterResume(chain[i - 1], chain[i])
      {
        if i < |chain| - 1 {
          assert chain[i] == old(chain)[i] && chain[i - 1] == old(chain)[i - 1];
        }
      }
    }

    twostate lemma SwitchInCtx(fiber: Fiber)
      requires old(Valid()) && fiber in old(fibers) && old(fiber.ctx) in old(saved) && SwitchedIn(fiber)
      requires old(Resumable(fiber.state))
      ensures CtxValid()
    {
    }

    /** Switch into `fiber`.  Its token was live until now and is used up by this jump. */
    method Resume(fiber: Fiber)
      requires Valid() && fiber in fibers && fiber != current && Resumable(fiber.state)
      modifies this, fibers
      ensures Valid() && fibers == old(fibers)
      ensures chain == old(chain) + [fiber] && current == fiber && fiber.state == EXEC
      ensures old(fiber.ctx) !in old(used) && used == old(used) + {old(fiber.ctx)}
      ensures forall f :: f in fibers && f != fiber ==>
                f.state == old(f.state) && f.ctx == old(f.ctx) && f.backCtx == old(f.backCtx)
    {
      hide ChainValid, BackValid;
      assert fiber.hasStack by { StackOf(fiber); }
      var prev := current;
      current := fiber;
      fiber.state := EXEC;
      Jump(fiber.ctx, AfterResume(prev, fiber));
      chain := chain + [fiber];
      SwitchInChain(fiber);
      SwitchInBack(fiber);
      SwitchInCtx(fiber);
    }

    /** The main coroutine always runs, so it can never be resumed. */
    lemma StackOf(fiber: Fiber)
      requires Valid() && fiber in fibers && Resumable(fiber.state)
      ensures fiber.hasStack
    {
      assert chain[0].state == EXEC;
    }

    /** What has happened once the current coroutine has been left for good or for a while. */
    twostate predicate SwitchedOut(left: Continuation)
      requires old(current.backCtx) in old(saved)
      reads this, fibers
    {
      && fibers == old(fibers) && |old(chain)| > 1
      && chain == old(chain)[..|old(chain)| - 1] && current == old(chain)[|old(chain)| - 2]
      && nextToken == old(nextToken) + 1
      && saved == (old(saved) - {old(current.backCtx)})[old(nextToken) := left]
      && (forall f :: f in fibers && f != old(current) ==> f.state == old(f.state))
      && (forall f :: f in fibers ==> f.ctx == if f == old(current) then old(nextToken) else old(f.ctx))
      && (forall f :: f in fibers ==> f.backCtx == old(f.backCtx))
    }

    twostate lemma SwitchOutChain(left: Continuation)
      requires old(Valid()) && old(current.hasStack) && old(current.backCtx) in old(saved) && SwitchedOut(left)
      requires old(current) in fibers && old(current).state != EXEC
      ensures ChainValid()
    {
      assert old(chain)[|old(chain)| - 1] == old(current);
      forall i | 0 <= i < |chain| ensures chain[i] == old(chain)[i] {
      }
    }

    twostate lemma SwitchOutBack(left: Continuation)
      requires old(Valid()) && old(current.hasStack) && old(current.backCtx) in old(saved) && SwitchedOut(left)
      requires old(forall i :: 0 < i < |chain| - 1 ==> chain[i].backCtx != current.backCtx)
      ensures BackValid()
    {
      forall i | 0 < i < |chain|
        ensures chain[i].backCtx in saved && saved[chain[i].backCtx] == AfterResume(chain[i - 1], chain[i])
      {
        assert chain[i] == old(chain)[i] && chain[i - 1] == old(chain)[i - 1];
      }
    }

    twostate lemma SwitchOutCtx(left: Continuation)
      requires old(Valid()) && old(current.backCtx) in old(saved) && SwitchedOut(left) && old(current) in fibers
      requires old(saved)[old(current.backCtx)].AfterResume?
      requires Resumable(old(current).state) ==> left == AfterYield(old(current)) && old(current).state != INIT
      ensures CtxValid()
    {
    }

    /** What yielding and ending have in common: the new state and the jump to the resumer. */
    method Leave(state: FiberState, left: Continuation)
      requires Valid() && current.hasStack && state != EXEC && state != INIT
      requires Resumable(state) ==> left == AfterYield(current)
      modifies this, fibers
      ensures Valid() && fibers == old(fibers)
      ensures chain == old(chain)[..|old(chain)| - 1] && current == old(chain)[|old(chain)| - 2]
      ensures old(current).state == state
      ensures old(current.backCtx) !in old(used) && used == old(used) + {old(current.backCtx)}
      ensures forall f :: f in fibers && f != old(current) ==>
                f.state == old(f.state) && f.ctx == old(f.ctx) && f.backCtx == old(f.backCtx)
    {
      hide ChainValid, BackValid, CtxValid;
      var curr := current;
      ghost var resumer := WayBack();
      assert curr.state == EXEC;
      curr.state := state;
      Jump(curr.backCtx, left);
      chain := chain[..|chain| - 1];
      SwitchOutChain(left);
      SwitchOutBack(left);
      SwitchOutCtx(left);
    }

    /** Leave the current coroutine for its resumer; the code asserts that it is running, which
        holds by itself. */
    method YieldTo(state: FiberState)
      requires Valid() && current.hasStack && (state == HOLD || state == READY)
      modifies this, fibers
      ensures Valid() && fibers == old(fibers)
      ensures chain == old(chain)[..|old(chain)| - 1] && current == old(chain)[|old(chain)| - 2]
      ensures old(current).state == state
      ensures old(current.backCtx) !in old(used) && used == old(used) + {old(current.backCtx)}
      ensures forall f :: f in fibers && f != old(current) ==>
                f.state == old(f.state) && f.ctx == old(f.ctx) && f.backCtx == old(f.backCtx)
    {
      Leave(state, AfterYield(current));
    }

    /** The end of run(): the callback returned or threw. */
    method Finish(threw: bool)
      requires Valid() && current.hasStack
      modifies this, fibers
      ensures Valid() && fibers == old(fibers)
      ensures chain == old(chain)[..|old(chain)| - 1] && current == old(chain)[|old(chain)| - 2]
      ensures old(current).state == if threw then EXCEPT else TERM
      ensures old(current.backCtx) !in old(used) && used == old(used) + {old(current.backCtx)}
      ensures forall f :: f in fibers && f != old(current) ==>
                f.state == old(f.state) && f.ctx == old(f.ctx) && f.backCtx == old(f.backCtx)
    {
      assert current.state == EXEC by { ghost var resumer := WayBack(); }
      var state := current.state;
      if threw {
        state := EXCEPT;
      }
      if state == EXEC {
        state := TERM;
      }
      Leave(state, Unreachable);
    }
  }
}
