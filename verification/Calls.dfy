/** Calls from userland into foreign code and back: the life of a call's frame. */
module Calls {

  /** How far a call gets. */
  datatype Outcome = BadArgs | LetFails | PreFails | PostFails | Succeeds

  /** What userland and foreign code do, one thing after the other. `Call`: userland calls a function
      implemented by `impl`; reading the arguments may make userland run `parse`, converting them
      `prepare`, the foreign function does `foreign`,
          the free functions do `frees`. `Callback`: foreign code calls the closure made for
      `impl`, which makes userland do `body`. `FreeCall`: a foreign function that no implementation
      stands for is called, to free something. */
  datatype Script =
    | Done
    | Call(impl: nat, parse: Script, prepare: Script, outcome: Outcome, foreign: Script, frees: Script, rest: Script)
    | Callback(impl: nat, body: Script, rest: Script)
    | FreeCall(foreign: Script, rest: Script)

  datatype Phase = Enter | Let | Pre | Post | Return | Set | Free

  /** The implementation a frame is for, if any. */
  datatype Impl = NoImpl | Impl(id: nat)

  /** `Entered` and `Left` enclose a foreign call. */
  datatype Event =
    | Init(frame: nat) | Runs(frame: nat, phase: Phase) | Entered(impl: Impl, frame: nat) | Left(frame: nat)
    | Sees(id: nat, frame: nat) | Freed(frame: nat)

  // ----- the reference: frames by scope -----

  /** What has happened so far, the frames made, and whether no assertion has ended it. */
  datatype Run = Run(log: seq<Event>, next: nat, ok: bool)

  function Noted(r: Run, e: Event): Run {
    r.(log := r.log + [e])
  }

  function FrameMade(r: Run): Run {
    Run(r.log + [Init(r.next)], r.next + 1, r.ok)
  }

  /** A run in which a callback sees the call it is made in, `env` being the calls around it. A callback
      outside of any call of its implementation ends the run. */
  function Scoped(s: Script, env: map<nat, nat>, r: Run): Run
    decreases s, 2
  {
    if !r.ok then r
    else match s
      case Done => r
      case Call(impl, parse, prepare, outcome, foreign, frees, rest) => Scoped(rest, env, ScopedCall(s, env, r))
      case Callback(impl, body, rest) =>
        if impl !in env then r.(ok := false) else Scoped(rest, env, Scoped(body, env, Noted(r, Sees(impl, env[impl]))))
      case FreeCall(foreign, rest) => Scoped(rest, env, ScopedFree(foreign, env, r))
  }

  function ScopedFree(foreign: Script, env: map<nat, nat>, r: Run): Run
    decreases foreign, 3
  {
    var r1 := Scoped(foreign, env, Noted(Noted(FrameMade(r), Runs(r.next, Enter)), Entered(NoImpl, r.next)));
    if r1.ok then Noted(Noted(r1, Left(r.next)), Freed(r.next)) else r1
  }

  function ScopedCall(s: Script, env: map<nat, nat>, r: Run): Run
    requires s.Call?
    decreases s, 1
  {
    var f := r.next;
    var r1 := Scoped(s.parse, env, FrameMade(r));
    if !r1.ok then r1
    else if s.outcome == BadArgs then Noted(r1, Freed(f))
    else
      var r2 := Scoped(s.prepare, env, Noted(Noted(r1, Runs(f, Enter)), Runs(f, Let)));
      if r2.ok then Checked(s, env, f, r2) else r2
  }

  /** The rest of a call of the frame `f`, after its arguments were prepared. */
  function Checked(s: Script, env: map<nat, nat>, f: nat, r: Run): Run
    requires s.Call? && s.outcome != BadArgs
    decreases s, 0
  {
    if s.outcome == LetFails then Noted(Noted(r, Runs(f, Return)), Freed(f))
    else
      var r1 := Noted(r, Runs(f, Pre));
      if s.outcome == PreFails then Noted(Noted(r1, Runs(f, Return)), Freed(f))
      else
        var r2 := Scoped(s.foreign, env[s.impl := f], Noted(r1, Entered(Impl(s.impl), f)));
        if !r2.ok then r2
        else
          var r3 := Noted(Noted(Noted(r2, Left(f)), Runs(f, Post)), Runs(f, Return));
          if s.outcome == PostFails then Noted(r3, Freed(f))
          else
            var r4 := Scoped(s.frees, env, Noted(Noted(r3, Runs(f, Set)), Runs(f, Free)));
            if r4.ok then Noted(r4, Freed(f)) else r4
  }

  // ----- the program: one frame stored per implementation -----

  class Machine {
    /** The frame stored with each implementation, if any. */
    var stored: map<nat, nat>
    var next: nat
    ghost var log: seq<Event>

    constructor ()
      ensures stored == map[] && next == 0 && log == []
    {
      stored, next, log := map[], 0, [];
    }

    ghost method Note(e: Event)
      modifies this`log
      ensures log == old(log) + [e]
    {
      log := log + [e];
    }

    method InitFrame() returns (frame: nat)
      modifies this`next, this`log
      ensures frame == old(next) && next == frame + 1 && log == old(log) + [Init(frame)]
    {
      frame := next;
      next := next + 1;
      Note(Init(frame));
    }

    ghost function Now(ok: bool): Run
      reads this
    {
      Run(log, next, ok)
    }

    /** Runs a script; `ok` is false if an assertion ended it. */
    method Execute(s: Script) returns (ok: bool)
      modifies this
      ensures Now(ok) == Scoped(s, old(stored), old(Now(true)))
      ensures ok ==> stored == old(stored)
      decreases s, 2
    {
      hide ScopedCall, ScopedFree;
      match s {
        case Done =>
          ok := true;
        case Call(impl, parse, prepare, outcome, foreign, frees, rest) =>
          ok := ContextCall(s);
          if ok {
            ok := Execute(rest);
          }
        case Callback(impl, body, rest) =>
          ok := HandleCallback(impl, body);
          if ok {
            ok := Execute(rest);
          }
        case FreeCall(foreign, rest) =>
          ok := CallToFree(foreign);
          if ok {
            ok := Execute(rest);
          }
      }
    }

    /** The closure: the frame of its implementation has to be there. */
    method HandleCallback(impl: nat, body: Script) returns (ok: bool)
      modifies this
      ensures Now(ok) == if impl !in old(stored) then old(Now(false))
                         else Scoped(body, old(stored), Noted(old(Now(true)), Sees(impl, old(stored)[impl])))
      ensures ok ==> stored == old(stored)
      decreases body, 3
    {
      if impl !in stored {
        return false;
      }
      Note(Sees(impl, stored[impl]));
      ok := Execute(body);
    }

    /** Stores the frame with its implementation, if it has one, for the time of the foreign call. */
    method FfiCall(frame: nat, impl: Impl, foreign: Script) returns (ok: bool)
      modifies this
      ensures var env := if impl.Impl? then old(stored)[impl.id := frame] else old(stored);
              var r := Scoped(foreign, env, Noted(old(Now(true)), Entered(impl, frame)));
              Now(ok) == if r.ok then Noted(r, Left(frame)) else r
      ensures ok ==> stored == old(stored)
      decreases foreign, 3
    {
      Note(Entered(impl, frame));
      var prev := stored;
      if impl.Impl? {
        stored := stored[impl.id := frame];
      }
      ok := Execute(foreign);
      if ok && impl.Impl? {
        stored := if impl.id in prev then stored[impl.id := prev[impl.id]] else stored - {impl.id};
        assert stored == prev;
      }
      if ok {
        Note(Left(frame));
      }
    }

    method CallToFree(foreign: Script) returns (ok: bool)
      modifies this
      ensures Now(ok) == ScopedFree(foreign, old(stored), old(Now(true)))
      ensures ok ==> stored == old(stored)
      decreases foreign, 4
    {
      hide Scoped;
      var frame := InitFrame();
      Note(Runs(frame, Enter));
      ok := FfiCall(frame, NoImpl, foreign);
      if ok {
        Note(Freed(frame));
      }
    }

    method ContextCall(s: Script) returns (ok: bool)
      requires s.Call?
      modifies this
      ensures Now(ok) == ScopedCall(s, old(stored), old(Now(true)))
      ensures ok ==> stored == old(stored)
      decreases s, 1
    {
      hide Scoped, Checked;
      var frame := InitFrame();
      ok := Execute(s.parse);
      if ok {
        if s.outcome == BadArgs {
          Note(Freed(frame));
          return;
        }
        Note(Runs(frame, Enter));
        Note(Runs(frame, Let));
        ok := Execute(s.prepare);
        if ok {
          ok := CallChecked(s, frame);
        }
      }
    }

    method CallChecked(s: Script, frame: nat) returns (ok: bool)
      requires s.Call? && s.outcome != BadArgs
      modifies this
      ensures Now(ok) == Checked(s, old(stored), frame, old(Now(true)))
      ensures ok ==> stored == old(stored)
      decreases s, 0
    {
      hide Scoped;
      if s.outcome == LetFails {
        Note(Runs(frame, Return));
        Note(Freed(frame));
        return true;
      }
      Note(Runs(frame, Pre));
      if s.outcome == PreFails {
        Note(Runs(frame, Return));
        Note(Freed(frame));
        return true;
      }
      ok := FfiCall(frame, Impl(s.impl), s.foreign);
      if !ok {
        return;
      }
      Note(Runs(frame, Post));
      Note(Runs(frame, Return));
      if s.outcome == PostFails {
        Note(Freed(frame));
        return;
      }
      Note(Runs(frame, Set));
      Note(Runs(frame, Free));
      ok := Execute(s.frees);
      if ok {
        Note(Freed(frame));
      }
    }
  }
}
