/**
 * The request router of top.limitart.mapping.RouterImpl.
 *
 * Reflection is abstract: a class is a `ClassRef`, what reflection says about it
 * (the @MapperClass annotation and the methods MethodAccess lists, in order) is
 * `Env.reflect`, and `Class.isAssignableFrom` is the relation `Env.isAssignableFrom`.
 * The router keeps three tables (message class -> binding, mapper class -> owner
 * instance, mapper class -> method table); `Register` is the specification of
 * registerMapperClass over those tables, and the class `RouterImpl` holds them as
 * fields and updates them step by step as the Java code does.
 */
module Mapping {
  import opened Wrappers
  import MapKeys

  /** A Java class, known by its name. */
  datatype ClassRef = ClassRef(name: string)

  /** What reflection tells about one method of a mapper class. */
  datatype MethodDesc = MethodDesc(
    mapper: bool,                // carries the @Mapper annotation
    isPublic: bool,
    paramTypes: seq<ClassRef>,
    messageType: ClassRef)       // the value of @Mapper

  /** What reflection tells about a class offered for registration. */
  datatype ClassInfo = ClassInfo(mapperClass: bool, methods: seq<MethodDesc>)

  /** The fixed world a router lives in: its message and context base classes, and reflection. */
  datatype Env = Env(
    mClass: ClassRef,
    cClass: ClassRef,
    isAssignableFrom: (ClassRef, ClassRef) -> bool,
    reflect: ClassRef -> ClassInfo)

  /** An owner instance of a mapper class (an opaque Java object). */
  datatype Instance = Instance(handle: nat)

  /** confirmInstance.run or Class.newInstance: an instance, or None when it throws or yields null. */
  type InstanceFactory = ClassRef -> Option<Instance>

  /** A message value; only its runtime class matters to the router. */
  datatype Message = Message(runtimeClass: ClassRef)

  /** RouterImpl.Context: the constructor of the message type, the mapper class and the method index. */
  datatype Binding = Binding(messageType: ClassRef, mapperClass: ClassRef, methodIndex: nat)

  /** The three tables: msgs, managerInstances and methods. */
  datatype Tables = Tables(
    msgs: map<ClassRef, Binding>,
    instances: map<ClassRef, Instance>,
    methods: map<ClassRef, seq<MethodDesc>>)

  datatype RegisterError =
    | NotPublic(mapperClass: ClassRef, methodIndex: nat)            // IllegalAccessError
    | ParamCount(mapperClass: ClassRef, methodIndex: nat)           // IllegalArgumentException
    | ContextNotAssignable(mapperClass: ClassRef, methodIndex: nat) // IllegalAccessException
    | Duplicated(messageType: ClassRef)                             // RequestDuplicatedException
    | InstanceFailure(mapperClass: ClassRef)                        // newInstance or confirmInstance failed

  /** The tables after a registration attempt, and the exception it ended with, if any. */
  datatype Outcome = Outcome(tables: Tables, error: Option<RegisterError>)

  /** Conditions.notNull failing on the named argument. */
  datatype NullArgument = NullArgument(name: string)

  /** What `request` hands to its `proc`: nothing, or a deferred invoker. */
  datatype Dispatch<C> = Dropped | Dispatched(invoker: Invoker<C>)

  /** RouterImpl.Invoker: the mapper's method table, the owner instance, the method index and the context. */
  datatype Invoker<C> = Invoker(
    methodAccess: Option<seq<MethodDesc>>,
    target: Option<Instance>,
    methodIndex: nat,
    param: C)

  /** The foreign call `methodAccess.invoke(object, methodIndex, param)` performs. */
  datatype Call<C> = Call(handler: MethodDesc, target: Instance, context: C)

  datatype InvokeError = InvokeOnNull | NoSuchMethodIndex

  /** An annotated method that passes every check of registerMapperClass. */
  predicate Accepts(env: Env, m: MethodDesc) {
    && m.mapper
    && m.isPublic
    && |m.paramTypes| == 1
    && env.isAssignableFrom(env.mClass, m.messageType)
    && env.isAssignableFrom(env.cClass, m.paramTypes[0])
  }

  /** The binding points at an accepted method, of an annotated class, handling its own key. */
  predicate BindsHandler(env: Env, key: ClassRef, b: Binding) {
    var info := env.reflect(b.mapperClass);
    && b.messageType == key
    && info.mapperClass
    && b.methodIndex < |info.methods|
    && info.methods[b.methodIndex].messageType == key
    && Accepts(env, info.methods[b.methodIndex])
  }

  /** The invariant the router's tables keep. */
  predicate WellFormed(env: Env, t: Tables) {
    && (forall k :: k in t.msgs ==> BindsHandler(env, k, t.msgs[k]))
    && (forall c :: c in t.methods ==> t.methods[c] == env.reflect(c).methods)
    && t.instances.Keys == t.methods.Keys
  }

  /** `t2` keeps every binding and every instance of `t1` as it was. */
  predicate Keeps(t1: Tables, t2: Tables) {
    && (forall k :: k in t1.msgs ==> k in t2.msgs && t2.msgs[k] == t1.msgs[k])
    && (forall c :: c in t1.instances ==> c in t2.instances && t2.instances[c] == t1.instances[c])
    && (forall c :: c in t1.methods ==> c in t2.methods && t2.methods[c] == t1.methods[c])
  }

  /**
   * One iteration of the loop of registerMapperClass, on method `i` of `cls`.
   * The checks run in the source's order: public, one parameter, message type
   * (skipped silently when not a subclass of mClass), context type, duplicate.
   */
  function Step(env: Env, t: Tables, cls: ClassRef, i: nat, make: InstanceFactory): (o: Outcome)
    requires i < |env.reflect(cls).methods|
    ensures Keeps(t, o.tables)
    ensures forall k :: k in o.tables.msgs && k !in t.msgs ==>
      k == env.reflect(cls).methods[i].messageType && o.tables.msgs[k] == Binding(k, cls, i)
    ensures o.tables.instances.Keys <= t.instances.Keys + {cls}
    ensures o.tables.methods.Keys <= t.methods.Keys + {cls}
    ensures cls in o.tables.instances && cls !in t.instances ==>
      make(cls) == Some(o.tables.instances[cls]) && o.tables.msgs.Keys != t.msgs.Keys
  {
    var info := env.reflect(cls);
    var m := info.methods[i];
    if !m.mapper then Outcome(t, None)
    else if !m.isPublic then Outcome(t, Some(NotPublic(cls, i)))
    else if |m.paramTypes| != 1 then Outcome(t, Some(ParamCount(cls, i)))
    else if !env.isAssignableFrom(env.mClass, m.messageType) then Outcome(t, None)
    else if !env.isAssignableFrom(env.cClass, m.paramTypes[0]) then Outcome(t, Some(ContextNotAssignable(cls, i)))
    else if m.messageType in t.msgs then Outcome(t, Some(Duplicated(m.messageType)))
    else
      var msgs := t.msgs[m.messageType := Binding(m.messageType, cls, i)];
      var methods := if cls in t.methods then t.methods else t.methods[cls := info.methods];
      if cls in t.instances then
        Outcome(Tables(msgs, t.instances, methods), None)
      else
        match make(cls)
        case None => Outcome(Tables(msgs, t.instances, t.methods), Some(InstanceFailure(cls)))
        case Some(o) => Outcome(Tables(msgs, t.instances[cls := o], methods), None)
  }

  /**
   * The checks of one iteration, in the source's order: a non-public method
   * throws before its parameter count is looked at, a wrong parameter count
   * before the message type, a message type outside mClass is skipped silently
   * before the context type is checked, and the duplicate check comes last,
   * before anything is put.
   */
  lemma StepChecksInOrder(env: Env, t: Tables, cls: ClassRef, i: nat, make: InstanceFactory)
    requires i < |env.reflect(cls).methods|
    ensures var m := env.reflect(cls).methods[i];
      var o := Step(env, t, cls, i, make);
      && (o.error == Some(NotPublic(cls, i)) <==> m.mapper && !m.isPublic)
      && (o.error == Some(ParamCount(cls, i)) <==> m.mapper && m.isPublic && |m.paramTypes| != 1)
      && (o.error == Some(ContextNotAssignable(cls, i)) <==>
            && m.mapper && m.isPublic && |m.paramTypes| == 1
            && env.isAssignableFrom(env.mClass, m.messageType)
            && !env.isAssignableFrom(env.cClass, m.paramTypes[0]))
      && (o.error == Some(Duplicated(m.messageType)) <==> Accepts(env, m) && m.messageType in t.msgs)
      && (o == Outcome(t, None) <==>
            !m.mapper || (m.isPublic && |m.paramTypes| == 1 && !env.isAssignableFrom(env.mClass, m.messageType)))
      && (Accepts(env, m) && m.messageType !in t.msgs ==>
            o.tables.msgs == t.msgs[m.messageType := Binding(m.messageType, cls, i)])
      && (Accepts(env, m) && o.error.None? ==> cls in o.tables.instances && cls in o.tables.methods)
      && (o.error.Some? && !o.error.value.InstanceFailure? ==> o.tables == t)
  {
  }

  /**
   * The loop of registerMapperClass from method `i` on: it stops at the first
   * exception, keeping whatever the earlier iterations inserted.
   */
  function RegisterFrom(env: Env, t: Tables, cls: ClassRef, i: nat, make: InstanceFactory): (o: Outcome)
    requires i <= |env.reflect(cls).methods|
    ensures Keeps(t, o.tables)
    ensures forall k :: k in o.tables.msgs && k !in t.msgs ==>
      o.tables.msgs[k].mapperClass == cls && i <= o.tables.msgs[k].methodIndex
    ensures o.tables.instances.Keys <= t.instances.Keys + {cls}
    ensures o.tables.methods.Keys <= t.methods.Keys + {cls}
    ensures cls in o.tables.instances && cls !in t.instances ==>
      make(cls) == Some(o.tables.instances[cls]) && o.tables.msgs.Keys != t.msgs.Keys
    decreases |env.reflect(cls).methods| - i
  {
    if i == |env.reflect(cls).methods| then Outcome(t, None)
    else
      var s := Step(env, t, cls, i, make);
      if s.error.Some? then s else RegisterFrom(env, s.tables, cls, i + 1, make)
  }

  /** registerMapperClass(mapperClass, confirmInstance), with `make` the instance source it uses. */
  function Register(env: Env, t: Tables, cls: ClassRef, make: InstanceFactory): (o: Outcome)
    ensures Keeps(t, o.tables)
    ensures cls in t.instances ==> o.tables.instances == t.instances
    ensures cls in t.methods ==> o.tables.methods == t.methods
  {
    if !env.reflect(cls).mapperClass then Outcome(t, None) else RegisterFrom(env, t, cls, 0, make)
  }

  /** The instance source registerMapperClass uses: confirmInstance when given, else newInstance. */
  function InstanceSource(confirmInstance: Option<InstanceFactory>, newInstance: InstanceFactory): (make: InstanceFactory)
    ensures confirmInstance.Some? ==> make == confirmInstance.value
    ensures confirmInstance.None? ==> make == newInstance
  {
    if confirmInstance.Some? then confirmInstance.value else newInstance
  }

  lemma StepPreservesWellFormed(env: Env, t: Tables, cls: ClassRef, i: nat, make: InstanceFactory)
    requires WellFormed(env, t)
    requires env.reflect(cls).mapperClass && i < |env.reflect(cls).methods|
    ensures WellFormed(env, Step(env, t, cls, i, make).tables)
  {
  }

  /** Registration keeps the tables well formed, whether it succeeds or throws. */
  lemma {:induction false} RegisterPreservesWellFormed(env: Env, t: Tables, cls: ClassRef, make: InstanceFactory)
    requires WellFormed(env, t)
    ensures WellFormed(env, Register(env, t, cls, make).tables)
  {
    if env.reflect(cls).mapperClass {
      RegisterFromPreservesWellFormed(env, t, cls, 0, make);
    }
  }

  lemma {:induction false} RegisterFromPreservesWellFormed(env: Env, t: Tables, cls: ClassRef, i: nat, make: InstanceFactory)
    requires WellFormed(env, t)
    requires env.reflect(cls).mapperClass && i <= |env.reflect(cls).methods|
    ensures WellFormed(env, RegisterFrom(env, t, cls, i, make).tables)
    decreases |env.reflect(cls).methods| - i
  {
    if i < |env.reflect(cls).methods| {
      StepPreservesWellFormed(env, t, cls, i, make);
      var s := Step(env, t, cls, i, make);
      if s.error.None? {
        RegisterFromPreservesWellFormed(env, s.tables, cls, i + 1, make);
      }
    }
  }

  /** A class without @MapperClass changes nothing. */
  lemma UnannotatedChangesNothing(env: Env, t: Tables, cls: ClassRef, make: InstanceFactory)
    requires !env.reflect(cls).mapperClass
    ensures Register(env, t, cls, make) == Outcome(t, None)
  {
  }

  /**
   * A registration that throws nothing has bound every accepted method of the
   * class, from `i` on, to that very method.
   */
  lemma {:induction false} RegisterFromBindsEveryHandler(env: Env, t: Tables, cls: ClassRef, i: nat, make: InstanceFactory, j: nat)
    requires i <= j < |env.reflect(cls).methods|
    requires Accepts(env, env.reflect(cls).methods[j])
    requires RegisterFrom(env, t, cls, i, make).error.None?
    ensures var o := RegisterFrom(env, t, cls, i, make);
      var mt := env.reflect(cls).methods[j].messageType;
      && mt in o.tables.msgs && o.tables.msgs[mt] == Binding(mt, cls, j)
      && cls in o.tables.instances && cls in o.tables.methods
    decreases j - i
  {
    var s := Step(env, t, cls, i, make);
    if i < j {
      RegisterFromBindsEveryHandler(env, s.tables, cls, i + 1, make, j);
    }
  }

  lemma RegisterBindsEveryHandler(env: Env, t: Tables, cls: ClassRef, make: InstanceFactory, j: nat)
    requires env.reflect(cls).mapperClass
    requires j < |env.reflect(cls).methods| && Accepts(env, env.reflect(cls).methods[j])
    requires Register(env, t, cls, make).error.None?
    ensures var o := Register(env, t, cls, make);
      var mt := env.reflect(cls).methods[j].messageType;
      && mt in o.tables.msgs && o.tables.msgs[mt] == Binding(mt, cls, j)
      && cls in o.tables.instances && cls in o.tables.methods
  {
    RegisterFromBindsEveryHandler(env, t, cls, 0, make, j);
  }

  /**
   * Registration is not all-or-nothing: when method 0 binds and method 1 is
   * annotated but not public, the call throws IllegalAccessError and the
   * binding of method 0 stays.
   */
  lemma RegistrationIsNotAtomic(env: Env, t: Tables, cls: ClassRef, make: InstanceFactory)
    requires env.reflect(cls).mapperClass && |env.reflect(cls).methods| >= 2
    requires Accepts(env, env.reflect(cls).methods[0])
    requires env.reflect(cls).methods[0].messageType !in t.msgs
    requires cls in t.instances || make(cls).Some?
    requires env.reflect(cls).methods[1].mapper && !env.reflect(cls).methods[1].isPublic
    ensures var o := Register(env, t, cls, make);
      && o.error == Some(NotPublic(cls, 1))
      && o.tables.msgs == t.msgs[env.reflect(cls).methods[0].messageType := Binding(env.reflect(cls).methods[0].messageType, cls, 0)]
  {
    var s0 := Step(env, t, cls, 0, make);
    assert s0.error.None?;
    assert RegisterFrom(env, s0.tables, cls, 1, make) == Step(env, s0.tables, cls, 1, make);
  }

  /**
   * When the owner instance cannot be made, the binding has already been put:
   * the message class stays bound to a mapper class that has neither an
   * instance nor a method table.
   */
  lemma InstanceFailureLeavesBinding(env: Env, t: Tables, cls: ClassRef, make: InstanceFactory)
    requires WellFormed(env, t)
    requires env.reflect(cls).mapperClass && |env.reflect(cls).methods| >= 1
    requires Accepts(env, env.reflect(cls).methods[0])
    requires env.reflect(cls).methods[0].messageType !in t.msgs
    requires cls !in t.instances && make(cls).None?
    ensures var o := Register(env, t, cls, make);
      var mt := env.reflect(cls).methods[0].messageType;
      && o.error == Some(InstanceFailure(cls))
      && mt in o.tables.msgs && o.tables.msgs[mt].mapperClass == cls
      && cls !in o.tables.instances && cls !in o.tables.methods
  {
  }

  /** The invoker `request` builds for message class `rc` and context `ctx` (Java lines 219-228). */
  function Route<C>(t: Tables, rc: ClassRef, ctx: C): (d: Dispatch<C>)
    ensures d.Dropped? <==> rc !in t.msgs
    ensures d.Dispatched? ==> d.invoker.param == ctx && d.invoker.methodIndex == t.msgs[rc].methodIndex
  {
    if rc !in t.msgs then Dropped
    else
      var b := t.msgs[rc];
      Dispatched(Invoker(
        if b.mapperClass in t.methods then Some(t.methods[b.mapperClass]) else None,
        if b.mapperClass in t.instances then Some(t.instances[b.mapperClass]) else None,
        b.methodIndex,
        ctx))
  }

  /** Invoker.invoke: MethodAccess.invoke(object, methodIndex, param). */
  function Invoke<C>(inv: Invoker<C>): (r: Result<Call<C>, InvokeError>)
    ensures r.Success? <==>
      inv.methodAccess.Some? && inv.target.Some? && inv.methodIndex < |inv.methodAccess.value|
    ensures r.Success? ==> r.value.target == inv.target.value && r.value.context == inv.param
    ensures r.Success? ==> r.value.handler == inv.methodAccess.value[inv.methodIndex]
  {
    if inv.methodAccess.None? then Failure(InvokeOnNull)
    else if inv.methodIndex >= |inv.methodAccess.value| then Failure(NoSuchMethodIndex)
    else if inv.target.None? then Failure(InvokeOnNull)
    else Success(Call(inv.methodAccess.value[inv.methodIndex], inv.target.value, inv.param))
  }

  /**
   * Dispatch reaches the handler: in well-formed tables, the invoker for a bound
   * message class whose mapper has an instance calls, on that instance and with
   * that context, the accepted method that was annotated with that very class.
   */
  lemma {:induction false} DispatchCallsBoundHandler<C>(env: Env, t: Tables, rc: ClassRef, ctx: C)
    requires WellFormed(env, t)
    requires rc in t.msgs && t.msgs[rc].mapperClass in t.instances
    ensures var r := Invoke(Route(t, rc, ctx).invoker);
      && r.Success?
      && r.value.target == t.instances[t.msgs[rc].mapperClass]
      && r.value.context == ctx
      && r.value.handler == env.reflect(t.msgs[rc].mapperClass).methods[t.msgs[rc].methodIndex]
      && r.value.handler.messageType == rc
      && Accepts(env, r.value.handler)
  {
    var b := t.msgs[rc];
    assert BindsHandler(env, rc, b);
    assert b.mapperClass in t.methods;
  }

  /**
   * End to end, as RouterDemo runs it: after a registration that throws nothing,
   * requesting a message of the class named by an accepted method `j` runs
   * method `j` on the instance registration made, with the context built for
   * the request.
   */
  lemma RegisterThenRequest<C>(env: Env, t: Tables, cls: ClassRef, make: InstanceFactory, j: nat, ctx: C)
    requires WellFormed(env, t) && cls !in t.instances
    requires env.reflect(cls).mapperClass
    requires j < |env.reflect(cls).methods| && Accepts(env, env.reflect(cls).methods[j])
    requires Register(env, t, cls, make).error.None?
    ensures var o := Register(env, t, cls, make);
      var rc := env.reflect(cls).methods[j].messageType;
      && make(cls).Some?
      && Route(o.tables, rc, ctx).Dispatched?
      && Invoke(Route(o.tables, rc, ctx).invoker) == Success(Call(env.reflect(cls).methods[j], make(cls).value, ctx))
  {
    var o := Register(env, t, cls, make);
    var rc := env.reflect(cls).methods[j].messageType;
    RegisterBindsEveryHandler(env, t, cls, make, j);
    RegisterPreservesWellFormed(env, t, cls, make);
    assert o.tables.msgs[rc].mapperClass == cls;
    DispatchCallsBoundHandler(env, o.tables, rc, ctx);
  }

  class RouterImpl {
    const env: Env
    var msgs: map<ClassRef, Binding>
    var managerInstances: map<ClassRef, Instance>
    var methods: map<ClassRef, seq<MethodDesc>>

    function State(): Tables
      reads this
    {
      Tables(msgs, managerInstances, methods)
    }

    ghost predicate Valid()
      reads this
    {
      WellFormed(env, State())
    }

    /** new RouterImpl(mClass, cClass), that is Router.empty. */
    constructor (env: Env)
      ensures this.env == env && Valid()
      ensures State() == Tables(map[], map[], map[])
    {
      this.env := env;
      msgs := map[];
      managerInstances := map[];
      methods := map[];
    }

    /** registerMapperClass(mapperClass, confirmInstance); `newInstance` is Class.newInstance. */
    method RegisterMapperClass(mapperClass: ClassRef, confirmInstance: Option<InstanceFactory>, newInstance: InstanceFactory)
      returns (error: Option<RegisterError>)
      requires Valid()
      modifies this
      ensures Valid()
      ensures Outcome(State(), error) == Register(env, old(State()), mapperClass, InstanceSource(confirmInstance, newInstance))
    {
      ghost var make := InstanceSource(confirmInstance, newInstance);
      var manager := env.reflect(mapperClass);
      if !manager.mapperClass {
        return None;
      }
      var methodAccess := manager.methods;
      var i := 0;
      while i < |methodAccess|
        invariant 0 <= i <= |methodAccess|
        invariant Valid()
        invariant RegisterFrom(env, State(), mapperClass, i, make) == Register(env, old(State()), mapperClass, make)
      {
        var m := methodAccess[i];
        if !m.mapper {
          i := i + 1;
          continue;
        }
        if !m.isPublic {
          return Some(NotPublic(mapperClass, i));
        }
        if |m.paramTypes| != 1 {
          return Some(ParamCount(mapperClass, i));
        }
        var messageType := m.messageType;
        if !env.isAssignableFrom(env.mClass, messageType) {
          i := i + 1;
          continue;
        }
        if !env.isAssignableFrom(env.cClass, m.paramTypes[0]) {
          return Some(ContextNotAssignable(mapperClass, i));
        }
        if messageType in msgs {
          return Some(Duplicated(messageType));
        }
        error := Bind(mapperClass, i, confirmInstance, newInstance);
        if error.Some? {
          return;
        }
        i := i + 1;
      }
      return None;
    }

    /**
     * The tail of one iteration of registerMapperClass: put the binding, then
     * make the owner instance and store the method table if the class has
     * none yet.
     */
    method Bind(mapperClass: ClassRef, i: nat, confirmInstance: Option<InstanceFactory>, newInstance: InstanceFactory)
      returns (error: Option<RegisterError>)
      requires Valid()
      requires env.reflect(mapperClass).mapperClass && i < |env.reflect(mapperClass).methods|
      requires Accepts(env, env.reflect(mapperClass).methods[i])
      requires env.reflect(mapperClass).methods[i].messageType !in msgs
      modifies this
      ensures Valid()
      ensures Outcome(State(), error) == Step(env, old(State()), mapperClass, i, InstanceSource(confirmInstance, newInstance))
    {
      StepPreservesWellFormed(env, State(), mapperClass, i, InstanceSource(confirmInstance, newInstance));
      var methodAccess := env.reflect(mapperClass).methods;
      var messageType := methodAccess[i].messageType;
      msgs := msgs[messageType := Binding(messageType, mapperClass, i)];
      if mapperClass !in managerInstances {
        var created: Option<Instance>;
        if confirmInstance.Some? {
          created := confirmInstance.value(mapperClass);
        } else {
          created := newInstance(mapperClass);
        }
        if created.None? {
          return Some(InstanceFailure(mapperClass));
        }
        managerInstances := managerInstances[mapperClass := created.value];
      }
      if mapperClass !in methods {
        methods := methods[mapperClass := methodAccess];
      }
      return None;
    }

    /** replaceInstance(mapperClass, request, newInstance): overwrite an existing owner instance only. */
    method ReplaceInstance(mapperClass: Option<ClassRef>, request: Option<Message>, newInstance: Option<Instance>)
      returns (r: Result<(), NullArgument>)
      requires Valid()
      modifies this
      ensures Valid()
      ensures msgs == old(msgs) && methods == old(methods)
      ensures mapperClass.None? ==> r == Failure(NullArgument("mapperClass"))
      ensures mapperClass.Some? && request.None? ==> r == Failure(NullArgument("request"))
      ensures mapperClass.Some? && request.Some? && newInstance.None? ==> r == Failure(NullArgument("newInstance"))
      ensures r.Failure? ==> managerInstances == old(managerInstances)
      ensures r.Success? ==>
        managerInstances == (if mapperClass.value in old(managerInstances)
          then old(managerInstances)[mapperClass.value := newInstance.value] else old(managerInstances))
      ensures managerInstances.Keys == old(managerInstances).Keys
    {
      if mapperClass.None? {
        return Failure(NullArgument("mapperClass"));
      }
      if request.None? {
        return Failure(NullArgument("request"));
      }
      if newInstance.None? {
        return Failure(NullArgument("newInstance"));
      }
      if mapperClass.value in managerInstances {
        managerInstances := managerInstances[mapperClass.value := newInstance.value];
      }
      return Success(());
    }

    /** foreachRequestClass(consumer): the message classes, in the order the consumer sees them. */
    method ForeachRequestClass() returns (visited: seq<ClassRef>)
      ensures |visited| == |msgs|
      ensures forall c :: c in visited <==> c in msgs
      ensures forall i, j :: 0 <= i < j < |visited| ==> visited[i] != visited[j]
    {
      visited := MapKeys.Enumerate(msgs);
    }

    /** requestInstance(requestClass): a fresh message of a registered class, or null. */
    method RequestInstance(requestClass: ClassRef) returns (r: Option<Message>)
      requires Valid()
      ensures r.Some? <==> requestClass in msgs
      ensures r.Some? ==> r.value.runtimeClass == requestClass
    {
      if requestClass !in msgs {
        return None;
      }
      var messageContext := msgs[requestClass];
      return Some(Message(messageContext.messageType));
    }

    /**
     * request(request, contextInstance, proc): the result is what `proc` is run
     * with; `Dropped` means neither `contextInstance` nor `proc` runs.
     */
    method Request<C>(request: Option<Message>, contextInstance: () -> C) returns (r: Result<Dispatch<C>, NullArgument>)
      requires Valid()
      ensures request.None? ==> r == Failure(NullArgument("request"))
      ensures request.Some? ==> r.Success?
      ensures request.Some? && request.value.runtimeClass !in msgs ==> r.value == Dropped
      ensures request.Some? && request.value.runtimeClass in msgs ==>
        var b := msgs[request.value.runtimeClass];
        && r.value.Dispatched?
        && r.value.invoker.param == contextInstance()
        && r.value.invoker.methodIndex == b.methodIndex
        && r.value.invoker.target == (if b.mapperClass in managerInstances then Some(managerInstances[b.mapperClass]) else None)
        && (b.mapperClass in managerInstances ==> r.value.invoker.methodAccess == Some(env.reflect(b.mapperClass).methods))
      ensures r.Success? ==> r.value == Route(State(), request.value.runtimeClass, contextInstance())
    {
      if request.None? {
        return Failure(NullArgument("request"));
      }
      var rc := request.value.runtimeClass;
      if rc !in msgs {
        return Success(Dropped);
      }
      var messageContext := msgs[rc];
      var param := contextInstance();
      var methodAccess := if messageContext.mapperClass in methods then Some(methods[messageContext.mapperClass]) else None;
      var instance := if messageContext.mapperClass in managerInstances then Some(managerInstances[messageContext.mapperClass]) else None;
      return Success(Dispatched(Invoker(methodAccess, instance, messageContext.methodIndex, param)));
    }
  }

  /**
   * RouterDemo: a router over StringRequest and StringQuestParam, the mapper
   * class StringMapperClass registered, one StringRequest requested and its
   * invoker run.
   */
  method RouterDemo(newInstance: InstanceFactory) returns (call: Result<Call<Message>, InvokeError>)
    requires newInstance(ClassRef("StringMapperClass")).Some?
    ensures call == Success(Call(DemoHandler(), newInstance(ClassRef("StringMapperClass")).value, Message(ClassRef("StringRequest"))))
  {
    var router := new RouterImpl(DemoEnv());
    var error := router.RegisterMapperClass(ClassRef("StringMapperClass"), None, newInstance);
    assert error.None?;
    var newRequest := Message(ClassRef("StringRequest"));
    // The context StringQuestParam(newRequest) is represented by the request itself.
    var dispatched := router.Request(Some(newRequest), () => newRequest);
    RegisterThenRequest(DemoEnv(), Tables(map[], map[], map[]), ClassRef("StringMapperClass"), newInstance, 0, newRequest);
    call := Invoke(dispatched.value.invoker);
  }

  /** StringMapperClass's one handler: public, taking StringQuestParam, bound to StringRequest. */
  function DemoHandler(): MethodDesc {
    MethodDesc(true, true, [ClassRef("StringQuestParam")], ClassRef("StringRequest"))
  }

  /** The demo's world: every class is assignable to itself only. */
  function DemoEnv(): Env {
    Env(ClassRef("StringRequest"), ClassRef("StringQuestParam"),
      (sup: ClassRef, sub: ClassRef) => sup == sub,
      (c: ClassRef) => if c == ClassRef("StringMapperClass") then ClassInfo(true, [DemoHandler()]) else ClassInfo(false, []))
  }
}
