/** The generated call stubs (lib/CodeGen/SGXCodeGenerator.cpp) as push, pop and call
    sequences over one parameter stack.  The stubs for calls out of the enclave are
    the same sequences with the roles exchanged. */
module SGXCodeGenerator {
  import opened CallGraphs

  /** Parameter names, and whether something is returned. */
  datatype Signature = Signature(params: seq<string>, isVoid: bool)

  datatype Statement =
    | Push(v: string)
    | Pop(v: string)
    | CrossBoundary
    | CallFunction(result: Option<string>, args: seq<string>)

  const RETURN_VAL: string := "returnVal"

  function ParamName(name: string): string {
    name + "_param"
  }

  function Renamed(names: seq<string>): seq<string> {
    seq(|names|, i requires 0 <= i < |names| => ParamName(names[i]))
  }

  function Reversed<T>(s: seq<T>): (r: seq<T>)
    ensures |r| == |s|
    ensures forall i :: 0 <= i < |s| ==> r[i] == s[|s| - 1 - i]
  {
    seq(|s|, i requires 0 <= i < |s| => s[|s| - 1 - i])
  }

  function Pushes(names: seq<string>): seq<Statement> {
    seq(|names|, i requires 0 <= i < |names| => Push(names[i]))
  }

  function Pops(names: seq<string>): seq<Statement> {
    seq(|names|, i requires 0 <= i < |names| => Pop(names[i]))
  }

  /** The wrapper has one more parameter, for the result. */
  function WrapperParams(sig: Signature): seq<string> {
    if sig.isVoid then sig.params else sig.params + [RETURN_VAL]
  }

  /** The result variable, if there is one. */
  function Returned(sig: Signature): seq<string> {
    if sig.isVoid then [] else [RETURN_VAL]
  }

  /** C parameters have distinct names, none of them the generated one. */
  ghost predicate Usable(sig: Signature) {
    && (forall i, j :: 0 <= i < j < |sig.params| ==> sig.params[i] != sig.params[j])
    && RETURN_VAL !in sig.params
  }

  // ---------- The generators ----------

  /** Parameters are pushed in call order and popped in call order. */
  method GenerateEcallWrapper(sig: Signature) returns (body: seq<Statement>)
    ensures body == Pushes(WrapperParams(sig)) + [CrossBoundary] + Pops(WrapperParams(sig))
  {
    var params := sig.params;
    if !sig.isVoid {
      params := params + [RETURN_VAL];
    }
    body := [];
    for i := 0 to |params|
      invariant body == Pushes(params[..i])
    {
      body := body + [Push(params[i])];
    }
    assert params[..|params|] == params;
    body := body + [CrossBoundary];
    for i := 0 to |params|
      invariant body == Pushes(params) + [CrossBoundary] + Pops(params[..i])
    {
      body := body + [Pop(params[i])];
      assert Pops(params[..i + 1]) == Pops(params[..i]) + [Pop(params[i])];
    }
  }

  /** The handler pops in reverse call order, calls, and pushes in call order. */
  method GenerateEnclaveEcall(sig: Signature) returns (body: seq<Statement>)
    ensures body == HandlerBody(sig)
  {
    var returned := Returned(sig);
    body := Pops(returned);
    var callParams: seq<string> := [];
    ghost var start := body;
    var i := |sig.params|;
    while i > 0
      invariant 0 <= i <= |sig.params|
      invariant callParams == Renamed(sig.params)[i..]
      invariant body == start + Pops(Reversed(callParams))
    {
      i := i - 1;
      callParams := [ParamName(sig.params[i])] + callParams;
      body := body + [Pop(ParamName(sig.params[i]))];
      assert Pops(Reversed(callParams)) == Pops(Reversed(callParams[1..])) + [Pop(callParams[0])];
    }
    body := body + [CallFunction(if sig.isVoid then None else Some(RETURN_VAL), callParams)];
    body := body + Pushes(returned);
    ghost var middle := body;
    for k := 0 to |sig.params|
      invariant body == middle + Pushes(callParams[..k])
    {
      body := body + [Push(ParamName(sig.params[k]))];
      assert Pushes(callParams[..k + 1]) == Pushes(callParams[..k]) + [Push(callParams[k])];
    }
    assert callParams[..|sig.params|] == callParams;
  }

  function HandlerBody(sig: Signature): seq<Statement> {
    var names := Renamed(sig.params);
    Pops(Returned(sig)) + Pops(Reversed(names))
    + [CallFunction(if sig.isVoid then None else Some(RETURN_VAL), names)]
    + Pushes(Returned(sig)) + Pushes(names)
  }

  // ---------- Running the stubs ----------

  datatype Value = Value(bits: int)

  /** Local variables, the shared stack with its top at the end, and the argument
      lists the real function has received. */
  datatype Machine = Machine(env: map<string, Value>, stack: seq<Value>, received: seq<seq<Value>>)

  function Read(env: map<string, Value>, v: string): Value {
    if v in env then env[v] else Value(0)
  }

  function ReadAll(env: map<string, Value>, names: seq<string>): seq<Value> {
    seq(|names|, i requires 0 <= i < |names| => Read(env, names[i]))
  }

  /** f is the real function; handler is what runs on the other side. */
  function Execute(s: Statement, f: seq<Value> -> Value, handler: seq<Statement>, m: Machine): Option<Machine>
    decreases |handler|, 0
  {
    match s
    case Push(v) => Some(m.(stack := m.stack + [Read(m.env, v)]))
    case Pop(v) =>
      if m.stack == [] then None
      else Some(m.(env := m.env[v := m.stack[|m.stack| - 1]], stack := m.stack[..|m.stack| - 1]))
    case CallFunction(result, args) =>
      var values := ReadAll(m.env, args);
      Some(Machine(if result.Some? then m.env[result.value := f(values)] else m.env, m.stack, m.received + [values]))
    case CrossBoundary =>
      if handler == [] then None
      else
        var there := Run(handler, f, [], Machine(map[], m.stack, m.received));
        if there.None? then None else Some(there.value.(env := m.env))
  }

  function Run(body: seq<Statement>, f: seq<Value> -> Value, handler: seq<Statement>, m: Machine): Option<Machine>
    decreases |handler|, |body| + 1
  {
    if body == [] then Some(m)
    else
      var next := Execute(body[0], f, handler, m);
      if next.None? then None else Run(body[1..], f, handler, next.value)
  }

  lemma {:induction false} RunConcat(a: seq<Statement>, b: seq<Statement>, f: seq<Value> -> Value,
                                     handler: seq<Statement>, m: Machine)
    ensures Run(a + b, f, handler, m) ==
            if Run(a, f, handler, m).None? then None else Run(b, f, handler, Run(a, f, handler, m).value)
  {
    if a == [] {
      assert a + b == b;
    } else {
      assert (a + b)[1..] == a[1..] + b;
      var next := Execute(a[0], f, handler, m);
      if next.Some? {
        RunConcat(a[1..], b, f, handler, next.value);
      }
    }
  }

  /** Pushing puts the variables' values on the stack, in order. */
  lemma {:induction false} RunPushes(names: seq<string>, f: seq<Value> -> Value, handler: seq<Statement>, m: Machine)
    ensures Run(Pushes(names), f, handler, m) == Some(m.(stack := m.stack + ReadAll(m.env, names)))
  {
    if names == [] {
      assert m.stack + ReadAll(m.env, names) == m.stack;
    } else {
      var next := m.(stack := m.stack + [Read(m.env, names[0])]);
      assert Pushes(names)[1..] == Pushes(names[1..]);
      RunPushes(names[1..], f, handler, next);
      assert ReadAll(m.env, names) == [Read(m.env, names[0])] + ReadAll(m.env, names[1..]);
      assert next.stack + ReadAll(m.env, names[1..]) == m.stack + ReadAll(m.env, names);
    }
  }

  ghost predicate DistinctNames(names: seq<string>) {
    forall i, j :: 0 <= i < j < |names| ==> names[i] != names[j]
  }

  /** Popping gives the first name the topmost value, and so on down. */
  lemma {:induction false} RunPops(names: seq<string>, f: seq<Value> -> Value, handler: seq<Statement>,
                                   m: Machine, below: seq<Value>, values: seq<Value>)
    returns (env: map<string, Value>)
    requires |values| == |names| && m.stack == below + Reversed(values) && DistinctNames(names)
    ensures Run(Pops(names), f, handler, m) == Some(Machine(env, below, m.received))
    ensures forall i :: 0 <= i < |names| ==> names[i] in env && env[names[i]] == values[i]
    ensures forall v :: v !in names ==> (v in env <==> v in m.env) && (v in m.env ==> env[v] == m.env[v])
  {
    if names == [] {
      env := m.env;
      assert m.stack == below;
    } else {
      var next := m.(env := m.env[names[0] := values[0]], stack := m.stack[..|m.stack| - 1]);
      assert Reversed(values) == Reversed(values[1..]) + [values[0]];
      assert next.stack == below + Reversed(values[1..]);
      assert Pops(names)[1..] == Pops(names[1..]);
      assert Execute(Pops(names)[0], f, handler, m) == Some(next);
      env := RunPops(names[1..], f, handler, next, below, values[1..]);
    }
  }

  // ---------- One call across the boundary ----------

  lemma RenamedApart(a: string, b: string)
    ensures ParamName(a) != RETURN_VAL
    ensures a != b ==> ParamName(a) != ParamName(b)
  {
    var p, q := ParamName(a), ParamName(b);
    assert p[|p| - 1] == 'm' && RETURN_VAL[|RETURN_VAL| - 1] == 'l';
    if p == q {
      assert a == p[..|p| - 6] == q[..|q| - 6] == b;
    }
  }

  lemma HandlerNamesDistinct(sig: Signature)
    requires Usable(sig)
    ensures DistinctNames(Returned(sig) + Reversed(Renamed(sig.params)))
    ensures RETURN_VAL !in Renamed(sig.params)
  {
    var names := Renamed(sig.params);
    forall i, j | 0 <= i < |names| && 0 <= j < |names| && i != j
      ensures names[i] != names[j] && names[i] != RETURN_VAL
    {
      RenamedApart(sig.params[i], sig.params[j]);
    }
    forall i | 0 <= i < |names|
      ensures names[i] != RETURN_VAL
    {
      RenamedApart(sig.params[i], sig.params[i]);
    }
  }

  /** What the caller leaves on the stack, and what the handler leaves. */
  function Outgoing(sig: Signature, args: seq<Value>, old': Value): seq<Value> {
    args + if sig.isVoid then [] else [old']
  }

  function Incoming(sig: Signature, args: seq<Value>, result: Value): seq<Value> {
    (if sig.isVoid then [] else [result]) + args
  }

  /** The handler's pops give every parameter its argument. */
  lemma HandlerPops(sig: Signature, f: seq<Value> -> Value, args: seq<Value>, old': Value)
    returns (env: map<string, Value>)
    requires Usable(sig) && |args| == |sig.params|
    ensures Run(Pops(Returned(sig) + Reversed(Renamed(sig.params))), f, [],
                Machine(map[], Outgoing(sig, args, old'), []))
         == Some(Machine(env, [], []))
    ensures ReadAll(env, Renamed(sig.params)) == args
  {
    var names := Renamed(sig.params);
    var popped, values := Returned(sig) + Reversed(names), (if sig.isVoid then [] else [old']) + Reversed(args);
    var start := Machine(map[], Outgoing(sig, args, old'), []);
    HandlerNamesDistinct(sig);
    assert start.stack == [] + Reversed(values);
    env := RunPops(popped, f, [], start, [], values);
    PoppedInPlace(Returned(sig), names, if sig.isVoid then [] else [old'], args, env);
  }

  /** Popping in reverse gives each name the value pushed for it. */
  lemma PoppedInPlace(first: seq<string>, names: seq<string>, top: seq<Value>, args: seq<Value>,
                      env: map<string, Value>)
    requires |first| == |top| && |names| == |args|
    requires var popped, values := first + Reversed(names), top + Reversed(args);
             forall k :: 0 <= k < |popped| ==> popped[k] in env && env[popped[k]] == values[k]
    ensures ReadAll(env, names) == args
  {
    var popped, values := first + Reversed(names), top + Reversed(args);
    forall i | 0 <= i < |names|
      ensures Read(env, names[i]) == args[i]
    {
      var k := |first| + |names| - 1 - i;
      assert popped[k] == names[i] && values[k] == args[i];
    }
  }

  /** Then it calls, and pushes the result and its parameters. */
  lemma HandlerReplies(sig: Signature, f: seq<Value> -> Value, args: seq<Value>, env1: map<string, Value>)
    returns (env: map<string, Value>)
    requires ReadAll(env1, Renamed(sig.params)) == args
    requires RETURN_VAL !in Renamed(sig.params)
    ensures Run([CallFunction(if sig.isVoid then None else Some(RETURN_VAL), Renamed(sig.params))]
                + Pushes(Returned(sig) + Renamed(sig.params)), f, [], Machine(env1, [], []))
         == Some(Machine(env, Incoming(sig, args, f(args)), [args]))
  {
    var names, returned := Renamed(sig.params), Returned(sig);
    var call := CallFunction(if sig.isVoid then None else Some(RETURN_VAL), names);
    env := if sig.isVoid then env1 else env1[RETURN_VAL := f(args)];
    var after := Machine(env, [], [args]);
    assert [] + [args] == [args];
    assert Execute(call, f, [], Machine(env1, [], [])) == Some(after);
    assert ([call] + Pushes(returned + names))[1..] == Pushes(returned + names);
    RunPushes(returned + names, f, [], after);
    forall i | 0 <= i < |names|
      ensures Read(env, names[i]) == args[i]
    {
      assert Read(env1, names[i]) == ReadAll(env1, names)[i];
    }
    assert after.stack + ReadAll(env, returned + names) == Incoming(sig, args, f(args));
  }

  /** The handler hands the i-th argument to the i-th parameter. */
  lemma HandlerDelivers(sig: Signature, f: seq<Value> -> Value, args: seq<Value>, old': Value)
    returns (env: map<string, Value>)
    requires Usable(sig) && |args| == |sig.params|
    ensures Run(HandlerBody(sig), f, [], Machine(map[], Outgoing(sig, args, old'), []))
         == Some(Machine(env, Incoming(sig, args, f(args)), [args]))
  {
    var names, returned := Renamed(sig.params), Returned(sig);
    var first := Pops(returned + Reversed(names));
    var second := [CallFunction(if sig.isVoid then None else Some(RETURN_VAL), names)] + Pushes(returned + names);
    HandlerSplits(sig);
    var env1 := HandlerPops(sig, f, args, old');
    HandlerNamesDistinct(sig);
    env := HandlerReplies(sig, f, args, env1);
    RunConcat(first, second, f, [], Machine(map[], Outgoing(sig, args, old'), []));
  }

  lemma HandlerSplits(sig: Signature)
    ensures HandlerBody(sig) ==
            Pops(Returned(sig) + Reversed(Renamed(sig.params)))
            + ([CallFunction(if sig.isVoid then None else Some(RETURN_VAL), Renamed(sig.params))]
               + Pushes(Returned(sig) + Renamed(sig.params)))
  {
    var names, returned := Renamed(sig.params), Returned(sig);
    assert Pops(returned) + Pops(Reversed(names)) == Pops(returned + Reversed(names));
    assert Pushes(returned) + Pushes(names) == Pushes(returned + names);
  }

  /** The caller's variables: the arguments, and what the result variable held. */
  ghost predicate Holds(env: map<string, Value>, sig: Signature, args: seq<Value>, old': Value) {
    && |args| == |sig.params|
    && (forall i :: 0 <= i < |args| ==> sig.params[i] in env && env[sig.params[i]] == args[i])
    && (!sig.isVoid ==> RETURN_VAL in env && env[RETURN_VAL] == old')
  }

  lemma CallerSends(sig: Signature, f: seq<Value> -> Value, env: map<string, Value>, args: seq<Value>, old': Value)
    requires Holds(env, sig, args, old')
    ensures Run(Pushes(WrapperParams(sig)), f, HandlerBody(sig), Machine(env, [], []))
         == Some(Machine(env, Outgoing(sig, args, old'), []))
  {
    RunPushes(WrapperParams(sig), f, HandlerBody(sig), Machine(env, [], []));
    assert [] + ReadAll(env, WrapperParams(sig)) == Outgoing(sig, args, old');
  }

  lemma CallerCollects(sig: Signature, f: seq<Value> -> Value, env: map<string, Value>, args: seq<Value>, result: Value)
    returns (after: map<string, Value>)
    requires Usable(sig) && |args| == |sig.params|
    ensures Run(Pops(WrapperParams(sig)), f, HandlerBody(sig), Machine(env, Incoming(sig, args, result), [args]))
         == Some(Machine(after, [], [args]))
    ensures !sig.isVoid ==> Read(after, RETURN_VAL) == result
    ensures ReadAll(after, sig.params) == Reversed(args)
  {
    var names, values := WrapperParams(sig), Reversed(args) + if sig.isVoid then [] else [result];
    assert Incoming(sig, args, result) == [] + Reversed(values);
    after := RunPops(names, f, HandlerBody(sig), Machine(env, Incoming(sig, args, result), [args]), [], values);
    forall i | 0 <= i < |args|
      ensures Read(after, sig.params[i]) == Reversed(args)[i]
    {
      assert names[i] == sig.params[i] && values[i] == Reversed(args)[i];
    }
    if !sig.isVoid {
      assert names[|args|] == RETURN_VAL && values[|args|] == result;
    }
  }

  /** The whole call: every argument arrives in its place, the result comes back to
      the caller, and the stack is empty again.  The copies of the parameters,
      however, come back in reverse. */
  lemma CallCrossesBoundary(sig: Signature, f: seq<Value> -> Value, env: map<string, Value>, args: seq<Value>,
                            old': Value)
    returns (after: map<string, Value>)
    requires Usable(sig) && Holds(env, sig, args, old')
    ensures Run(Pushes(WrapperParams(sig)) + [CrossBoundary] + Pops(WrapperParams(sig)), f, HandlerBody(sig),
                Machine(env, [], []))
         == Some(Machine(after, [], [args]))
    ensures !sig.isVoid ==> Read(after, RETURN_VAL) == f(args)
    ensures ReadAll(after, sig.params) == Reversed(args)
  {
    var names, handler := WrapperParams(sig), HandlerBody(sig);
    var sent, back := Machine(env, Outgoing(sig, args, old'), []), Machine(env, Incoming(sig, args, f(args)), [args]);
    CallerSends(sig, f, env, args, old');
    var there := HandlerDelivers(sig, f, args, old');
    after := CallerCollects(sig, f, env, args, f(args));
    HandlerIsNotEmpty(sig);
    ThereAndBack(Pushes(names), Pops(names), f, handler, Machine(env, [], []), sent, there, back);
  }

  lemma HandlerIsNotEmpty(sig: Signature)
    ensures HandlerBody(sig) != []
  {
  }

  /** Sending, crossing and collecting one after the other. */
  lemma ThereAndBack(first: seq<Statement>, last: seq<Statement>, f: seq<Value> -> Value, handler: seq<Statement>,
                     start: Machine, sent: Machine, there: map<string, Value>, back: Machine)
    requires handler != [] && |back.received| == 1 && back.env == sent.env
    requires Run(first, f, handler, start) == Some(sent)
    requires Run(handler, f, [], Machine(map[], sent.stack, sent.received))
          == Some(Machine(there, back.stack, [back.received[0]]))
    ensures Run(first + [CrossBoundary] + last, f, handler, start) == Run(last, f, handler, back)
  {
    CrossOver(f, handler, sent, there, back.stack, back.received[0], last);
    assert back == Machine(sent.env, back.stack, [back.received[0]]);
    RunConcat(first, [CrossBoundary] + last, f, handler, start);
    assert first + [CrossBoundary] + last == first + ([CrossBoundary] + last);
  }

  /** The handler runs on its own variables and the same stack. */
  lemma CrossOver(f: seq<Value> -> Value, handler: seq<Statement>, sent: Machine, there: map<string, Value>,
                  reply: seq<Value>, args: seq<Value>, rest: seq<Statement>)
    requires handler != []
    requires Run(handler, f, [], Machine(map[], sent.stack, sent.received)) == Some(Machine(there, reply, [args]))
    ensures Run([CrossBoundary] + rest, f, handler, sent) == Run(rest, f, handler, Machine(sent.env, reply, [args]))
  {
    assert ([CrossBoundary] + rest)[1..] == rest;
    assert Execute(CrossBoundary, f, handler, sent) == Some(Machine(sent.env, reply, [args]));
  }

  /** The caller's stub against the handler. */
  function Exchange(sig: Signature, f: seq<Value> -> Value, env: map<string, Value>): Option<Machine> {
    Run(Pushes(WrapperParams(sig)) + [CrossBoundary] + Pops(WrapperParams(sig)), f, HandlerBody(sig),
        Machine(env, [], []))
  }

  /** Whatever is called with whatever arguments, every parameter of the caller has its
      own value again afterwards. */
  ghost predicate ParametersSurvive(sig: Signature) {
    forall f, env, args, old' :: Holds(env, sig, args, old') ==>
      Exchange(sig, f, env).Some? && ReadAll(Exchange(sig, f, env).value.env, sig.params) == args
  }

  function Bind(names: seq<string>, values: seq<Value>): map<string, Value>
    requires |names| == |values|
  {
    if names == [] then map[] else Bind(names[1..], values[1..])[names[0] := values[0]]
  }

  lemma {:induction false} BindBinds(names: seq<string>, values: seq<Value>)
    requires |names| == |values| && DistinctNames(names)
    ensures forall i :: 0 <= i < |names| ==>
              names[i] in Bind(names, values) && Bind(names, values)[names[i]] == values[i]
  {
    if names != [] {
      BindBinds(names[1..], values[1..]);
      forall i | 1 <= i < |names|
        ensures names[i] in Bind(names, values) && Bind(names, values)[names[i]] == values[i]
      {
        assert names[i] == names[1..][i - 1] && values[i] == values[1..][i - 1];
      }
    }
  }

  lemma SwappedCopies(sig: Signature)
    requires Usable(sig) && |sig.params| > 1
    ensures !ParametersSurvive(sig)
  {
    var n, f := |sig.params|, (values: seq<Value>) => Value(0);
    var args := seq(n, i => Value(i));
    var env := Bind(sig.params, args)[RETURN_VAL := Value(0)];
    BindBinds(sig.params, args);
    assert Holds(env, sig, args, Value(0));
    var after := CallCrossesBoundary(sig, f, env, args, Value(0));
    assert Exchange(sig, f, env) == Some(Machine(after, [], [args]));
    assert Reversed(args)[0] == Value(n - 1) && args[0] == Value(0);
  }

  lemma SingleCopy(sig: Signature)
    requires Usable(sig) && |sig.params| <= 1
    ensures ParametersSurvive(sig)
  {
    forall f, env, args, old' | Holds(env, sig, args, old')
      ensures Exchange(sig, f, env).Some? && ReadAll(Exchange(sig, f, env).value.env, sig.params) == args
    {
      var after := CallCrossesBoundary(sig, f, env, args, old');
      assert Reversed(args) == args;
    }
  }

  /** The copies come back in their own places exactly when there is at most one. */
  lemma CopiesReturnInPlace(sig: Signature)
    requires Usable(sig)
    ensures ParametersSurvive(sig) <==> |sig.params| <= 1
  {
    if |sig.params| <= 1 {
      SingleCopy(sig);
    } else {
      SwappedCopies(sig);
    }
  }
}
