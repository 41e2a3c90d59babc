/** The environment section: variables as `KEY=VALUE`, each ended by a zero byte. */
module Environment {
  import opened Bytes

  datatype Variable = Variable(key: seq<Byte>, value: seq<Byte>)

  const EQUALS: Byte := 0x3d

  /** What an environment can hold: names without `=`, and no zero bytes. */
  predicate IsVariable(v: Variable) {
    EQUALS !in v.key && 0 !in v.key && 0 !in v.value
  }

  function EncVariable(v: Variable): seq<Byte> {
    v.key + [EQUALS] + v.value + [0]
  }

  function EncEnvironment(vars: seq<Variable>): seq<Byte> {
    if vars == [] then [] else EncVariable(vars[0]) + EncEnvironment(vars[1..])
  }

  /** The position of the first `b`, or the length. */
  function Find(s: seq<Byte>, b: Byte): (i: nat)
    ensures i <= |s| && b !in s[..i] && (i < |s| ==> s[i] == b)
  {
    if s == [] || s[0] == b then 0 else 1 + Find(s[1..], b)
  }

  /** The variables of a block, later ones winning; an entry that is cut off ends it. */
  function Parsed(block: seq<Byte>, env: map<seq<Byte>, seq<Byte>>): map<seq<Byte>, seq<Byte>>
    decreases |block|
  {
    var end := Find(block, 0);
    if end == |block| then env
    else
      var entry := block[..end];
      var eq := Find(entry, EQUALS);
      Parsed(block[end + 1..], if eq < |entry| then env[entry[..eq] := entry[eq + 1..]] else env)
  }

  lemma ParsedUnfolds(rest: seq<Byte>, env: map<seq<Byte>, seq<Byte>>)
    ensures
      var end := Find(rest, 0);
      if end == |rest| then Parsed(rest, env) == env
      else
        var entry := rest[..end];
        var eq := Find(entry, EQUALS);
        Parsed(rest, env) == Parsed(rest[end + 1..], if eq < |entry| then env[entry[..eq] := entry[eq + 1..]] else env)
  {
    hide Find;
  }

  /** One entry further: `end` is where it ends, counted from `data`. */
  lemma ParsedStep(block: seq<Byte>, data: nat, env: map<seq<Byte>, seq<Byte>>)
    requires data <= |block|
    ensures
      var rest := block[data..];
      var end := Find(rest, 0);
      if end == |rest| then Parsed(rest, env) == env
      else
        var entry := rest[..end];
        var eq := Find(entry, EQUALS);
        var env' := if eq < |entry| then env[entry[..eq] := entry[eq + 1..]] else env;
        Parsed(rest, env) == Parsed(block[data + end + 1..], env')
  {
    hide Parsed, Find;
    var rest := block[data..];
    var end := Find(rest, 0);
    ParsedUnfolds(rest, env);
    if end < |rest| {
      assert rest[end + 1..] == block[data + end + 1..];
    }
  }

  method ParseEnvironment(block: seq<Byte>) returns (env: map<seq<Byte>, seq<Byte>>)
    ensures env == Parsed(block, map[])
  {
    hide Parsed, Find;
    env := map[];
    var data := 0;
    assert block[0..] == block;
    while data < |block|
      invariant data <= |block| && Parsed(block[data..], env) == Parsed(block, map[])
    {
      ParsedStep(block, data, env);
      var rest := block[data..];
      var end := Find(rest, 0);
      if end == |rest| {
        return;
      }
      var entry := rest[..end];
      var eq := Find(entry, EQUALS);
      if eq < |entry| {
        env := env[entry[..eq] := entry[eq + 1..]];
      }
      data := data + end + 1;
    }
    ParsedStep(block, data, env);
  }

  /** The variables as a map, later ones winning. */
  function AsMap(vars: seq<Variable>, env: map<seq<Byte>, seq<Byte>>): map<seq<Byte>, seq<Byte>> {
    if vars == [] then env else AsMap(vars[1..], env[vars[0].key := vars[0].value])
  }

  lemma {:induction false} FindBehind(front: seq<Byte>, b: Byte, rest: seq<Byte>)
    requires b !in front
    ensures Find(front + [b] + rest, b) == |front|
  {
    if front != [] {
      assert (front + [b] + rest)[1..] == front[1..] + [b] + rest;
      FindBehind(front[1..], b, rest);
    }
  }

  /** An environment is read back as it was written. */
  lemma {:induction false} EnvironmentReadBack(vars: seq<Variable>, env: map<seq<Byte>, seq<Byte>>)
    requires forall i :: 0 <= i < |vars| ==> IsVariable(vars[i])
    ensures Parsed(EncEnvironment(vars), env) == AsMap(vars, env)
  {
    if vars != [] {
      var v, more := vars[0], EncEnvironment(vars[1..]);
      var block, entry := EncEnvironment(vars), v.key + [EQUALS] + v.value;
      assert IsVariable(v);
      assert block == entry + [0] + more;
      FindBehind(entry, 0, more);
      FindBehind(v.key, EQUALS, v.value);
      assert block[..|entry|] == entry && block[|entry| + 1..] == more;
      assert entry[..|v.key|] == v.key && entry[|v.key| + 1..] == v.value;
      EnvironmentReadBack(vars[1..], env[v.key := v.value]);
    }
  }
}
