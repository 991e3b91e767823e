/**
 * Client processes and the log service together: each process tells the log service its session when it is
 * registered (src/client/openvpn3-service-client.cpp, src/log/log-service.cpp).
 */
module SessionLogs {
  import opened Outcomes
  import opened TextFilter
  import opened ClientSession
  import opened LogAttachments

  /** The client processes by their bus name, and the one log service. */
  datatype System = System(clients: map<string, Session>, log: Log)

  /** What is fixed: the log service's hash and key order, each process's setup and session, and their interface. */
  datatype Deployment = Deployment(env: Env, setup: string -> Setup, sessionPath: string -> string, backends: string)

  datatype Action =
    | ClientStep(sender: string, step: ClientSession.Step)
    | LogCall(call: LogAttachments.Step)   // of any process, other than the one a registration makes

  /** A client process starts with a new session. */
  function SessionOf(y: System, sender: string): Session {
    if sender in y.clients then y.clients[sender] else NEW_SESSION
  }

  predicate Registers(y: System, a: Action) {
    a.ClientStep? && a.step.Register? && !SessionOf(y, a.sender).registered && a.step.tokenMatches
  }

  /** A process that registers has attached its log before; the others leave AssignSession alone. */
  predicate Allowed(d: Deployment, y: System, a: Action) {
    if a.ClientStep? then
      (Registers(y, a) ==> HashOf(d.env, a.sender, d.backends) in y.log.attached && d.sessionPath(a.sender) != "")
    else !a.call.AssignSession?
  }

  function After(d: Deployment, y: System, a: Action): System
    requires Allowed(d, y, a)
  {
    match a
    case LogCall(call) => y.(log := LogAttachments.Next(d.env, y.log, call))
    case ClientStep(sender, step) =>
      System(ClientsAfter(d, y, sender, step),
             if Registers(y, a) then Assigned(d.env, y.log, sender, d.backends, d.sessionPath(sender)) else y.log)
  }

  ghost predicate IsSystemRun(d: Deployment, ys: seq<System>, actions: seq<Action>) {
    && |ys| == |actions| + 1 && ys[0] == System(map[], NEW_LOG)
    && forall i :: 0 <= i < |actions| ==> Allowed(d, ys[i], actions[i]) && ys[i + 1] == After(d, ys[i], actions[i])
  }

  ghost predicate BothSend(actions: seq<Action>, j: nat, k: nat) {
    j < |actions| && k < |actions| && actions[j].ClientStep? && actions[k].ClientStep?
  }

  /** Different client processes of this run have log tags of different hashes. */
  ghost predicate ClientsApart(d: Deployment, actions: seq<Action>) {
    forall j: nat, k: nat :: BothSend(actions, j, k) && actions[j].sender != actions[k].sender ==>
      HashOf(d.env, actions[j].sender, d.backends) != HashOf(d.env, actions[k].sender, d.backends)
  }

  /** The process has taken a step before. */
  ghost predicate HasActed(actions: seq<Action>, n: nat, sender: string)
    requires n <= |actions|
  {
    exists j :: 0 <= j < n && actions[j].ClientStep? && actions[j].sender == sender
  }

  lemma {:induction false} ClientsHaveActed(d: Deployment, ys: seq<System>, actions: seq<Action>, n: nat,
                                            sender: string)
    requires IsSystemRun(d, ys, actions) && n <= |actions| && sender in ys[n].clients
    ensures HasActed(actions, n, sender)
  {
    if n > 0 {
      var y, a := ys[n - 1], actions[n - 1];
      assert ys[n] == After(d, y, a);
      if sender in y.clients {
        ClientsHaveActed(d, ys, actions, n - 1, sender);
        var j :| 0 <= j < n - 1 && actions[j].ClientStep? && actions[j].sender == sender;
        assert j < n;
      }
    }
  }

  /** A service that was given a session belongs to a registered client. */
  ghost predicate GivenToRegistered(d: Deployment, y: System) {
    forall h :: h in y.log.attached && y.log.attached[h].objectPath != "" ==> OfRegistered(d, y, h)
  }

  ghost predicate OfRegistered(d: Deployment, y: System, h: nat) {
    exists sender :: sender in y.clients && y.clients[sender].registered && HashOf(d.env, sender, d.backends) == h
  }

  ghost predicate InOrder(d: Deployment, y: System) {
    LiveIndex(y.log) && ProperPaths(y.log) && GivenToRegistered(d, y)
  }

  // ---------------------------------------------------------------- calls of the log service

  lemma PathIsOld(env: Env, l: Log, step: LogAttachments.Step, h: nat)
    requires !step.AssignSession? && h in LogAttachments.Next(env, l, step).attached
    requires LogAttachments.Next(env, l, step).attached[h].objectPath != ""
    ensures h in l.attached && l.attached[h].objectPath != ""
  {
  }

  lemma LogCallKeepsOrder(d: Deployment, y: System, step: LogAttachments.Step)
    requires OrderLaw(d.env) && InOrder(d, y) && !step.AssignSession?
    ensures InOrder(d, After(d, y, LogCall(step)))
  {
    var z := After(d, y, LogCall(step));
    StepKeepsIndex(d.env, y.log, step);
    forall h | h in z.log.attached && z.log.attached[h].objectPath != "" ensures OfRegistered(d, z, h) {
      PathIsOld(d.env, y.log, step, h);
      assert OfRegistered(d, y, h);
    }
  }

  // ---------------------------------------------------------------- steps of a client

  lemma RegisteredAfter(setup: Setup, s: Session, step: ClientSession.Step)
    ensures var t := ClientSession.Next(setup, s, step);
      t.registered <==> s.registered || (step.Register? && step.tokenMatches)
  {
  }

  /** The processes after one of them took a step. */
  function ClientsAfter(d: Deployment, y: System, sender: string, step: ClientSession.Step): map<string, Session> {
    y.clients[sender := ClientSession.Next(d.setup(sender), SessionOf(y, sender), step)]
  }

  lemma StaysRegistered(d: Deployment, y: System, sender: string, step: ClientSession.Step, log: Log, h: nat)
    requires OfRegistered(d, y, h)
    ensures OfRegistered(d, System(ClientsAfter(d, y, sender, step), log), h)
  {
    var z := System(ClientsAfter(d, y, sender, step), log);
    var c :| c in y.clients && y.clients[c].registered && HashOf(d.env, c, d.backends) == h;
    RegisteredAfter(d.setup(sender), SessionOf(y, sender), step);
    assert c in z.clients && z.clients[c].registered;
  }

  /** A process that registers has not been given a session before. */
  lemma RegistersOnce(d: Deployment, ys: seq<System>, actions: seq<Action>, n: nat)
    requires IsSystemRun(d, ys, actions) && ClientsApart(d, actions) && n < |actions|
    requires GivenToRegistered(d, ys[n]) && Registers(ys[n], actions[n])
    ensures ys[n].log.attached[HashOf(d.env, actions[n].sender, d.backends)].objectPath == ""
  {
    var y, a := ys[n], actions[n];
    var h := HashOf(d.env, a.sender, d.backends);
    if y.log.attached[h].objectPath != "" {
      assert OfRegistered(d, y, h);
      var c :| c in y.clients && y.clients[c].registered && HashOf(d.env, c, d.backends) == h;
      ClientsHaveActed(d, ys, actions, n, c);
      var j :| 0 <= j < n && actions[j].ClientStep? && actions[j].sender == c;
      HashesDiffer(d, actions, j, n);
    }
  }

  lemma HashesDiffer(d: Deployment, actions: seq<Action>, j: nat, k: nat)
    requires ClientsApart(d, actions) && BothSend(actions, j, k) && actions[j].sender != actions[k].sender
    ensures HashOf(d.env, actions[j].sender, d.backends) != HashOf(d.env, actions[k].sender, d.backends)
  {
  }

  lemma RegistrationKeepsOrder(d: Deployment, y: System, a: Action)
    requires OrderLaw(d.env) && InOrder(d, y) && Allowed(d, y, a) && Registers(y, a)
    requires y.log.attached[HashOf(d.env, a.sender, d.backends)].objectPath == ""
    ensures InOrder(d, After(d, y, a))
  {
    var z, h := After(d, y, a), HashOf(d.env, a.sender, d.backends);
    StepKeepsIndex(d.env, y.log, AssignSession(a.sender, d.backends, d.sessionPath(a.sender)));
    RegisteredAfter(d.setup(a.sender), SessionOf(y, a.sender), a.step);
    forall k | k in z.log.attached && z.log.attached[k].objectPath != "" ensures OfRegistered(d, z, k) {
      if k == h {
        assert a.sender in z.clients && z.clients[a.sender].registered;
      } else {
        StaysRegistered(d, y, a.sender, a.step, z.log, k);
      }
    }
  }

  lemma ClientKeepsOrder(d: Deployment, y: System, a: Action)
    requires InOrder(d, y) && Allowed(d, y, a) && a.ClientStep? && !Registers(y, a)
    ensures InOrder(d, After(d, y, a))
  {
    var z := After(d, y, a);
    forall k | k in z.log.attached && z.log.attached[k].objectPath != "" ensures OfRegistered(d, z, k) {
      assert OfRegistered(d, y, k);
      StaysRegistered(d, y, a.sender, a.step, z.log, k);
    }
  }

  /**
   * In every run of any number of client processes and one log service, in which different client processes
   * have tags of different hashes, every entry of the session index is live: the `registered` flag of each
   * process is what keeps it so.
   */
  lemma {:induction false} IndexLiveInSystem(d: Deployment, ys: seq<System>, actions: seq<Action>, i: nat)
    requires OrderLaw(d.env) && IsSystemRun(d, ys, actions) && ClientsApart(d, actions) && i <= |actions|
    ensures InOrder(d, ys[i])
    ensures forall p :: p in ys[i].log.index ==>
      ProxyTarget(ys[i].log, p).Some? && ProxyTarget(ys[i].log, p).value.objectPath == p
  {
    if i > 0 {
      var y, a := ys[i - 1], actions[i - 1];
      IndexLiveInSystem(d, ys, actions, i - 1);
      assert ys[i] == After(d, y, a);
      if a.LogCall? {
        LogCallKeepsOrder(d, y, a.call);
      } else if Registers(y, a) {
        RegistersOnce(d, ys, actions, i - 1);
        RegistrationKeepsOrder(d, y, a);
      } else {
        ClientKeepsOrder(d, y, a);
      }
    }
  }

  // ---------------------------------------------------------------- whatever the hashes

  /** The service under the hash of the process that registers has no other live session. */
  predicate Unclaimed(d: Deployment, y: System, a: Action)
    requires Allowed(d, y, a) && Registers(y, a)
  {
    var h := HashOf(d.env, a.sender, d.backends);
    var path := y.log.attached[h].objectPath;
    path == d.sessionPath(a.sender) || path !in y.log.index || y.log.index[path] != h
  }

  /** One action keeps the index live unless it is a registration under a hash that has a session. */
  lemma ActionKeepsLive(d: Deployment, y: System, a: Action)
    requires OrderLaw(d.env) && LiveIndex(y.log) && Allowed(d, y, a)
    ensures LiveIndex(After(d, y, a).log) <==> (Registers(y, a) ==> Unclaimed(d, y, a))
  {
    if a.LogCall? {
      LogCallKeepsLive(d.env, y.log, a.call);
    } else if Registers(y, a) {
      AssignKeepsIndex(d.env, y.log, a.sender, d.backends, d.sessionPath(a.sender));
    }
  }

  lemma LogCallKeepsLive(env: Env, l: Log, step: LogAttachments.Step)
    requires OrderLaw(env) && LiveIndex(l) && !step.AssignSession?
    ensures LiveIndex(LogAttachments.Next(env, l, step))
  {
    DropKeepsIndex(env, l, Vanished(l.attached, step.alive));
    if step.Detach? {
      DropKeepsIndex(env, Cleaned(env, l, step.alive),
                     {HashOf(env, step.sender, FilterCtrlChars(step.rawInterface, true))});
    }
  }

  lemma {:induction false} LiveSoFar(d: Deployment, ys: seq<System>, actions: seq<Action>, n: nat)
    requires OrderLaw(d.env) && IsSystemRun(d, ys, actions) && n <= |actions|
    requires forall i :: 0 <= i < n && Registers(ys[i], actions[i]) ==> Unclaimed(d, ys[i], actions[i])
    ensures LiveIndex(ys[n].log)
  {
    if n > 0 {
      LiveSoFar(d, ys, actions, n - 1);
      ActionKeepsLive(d, ys[n - 1], actions[n - 1]);
      assert ys[n] == After(d, ys[n - 1], actions[n - 1]);
    }
  }

  /**
   * For any hash function: the index is live throughout a run if and only if no process registers while the
   * service under its hash has another live session.
   */
  lemma IndexLiveIff(d: Deployment, ys: seq<System>, actions: seq<Action>)
    requires OrderLaw(d.env) && IsSystemRun(d, ys, actions)
    ensures (forall i :: 0 <= i <= |actions| ==> LiveIndex(ys[i].log)) <==>
            forall i :: 0 <= i < |actions| && Registers(ys[i], actions[i]) ==> Unclaimed(d, ys[i], actions[i])
  {
    if forall i :: 0 <= i < |actions| && Registers(ys[i], actions[i]) ==> Unclaimed(d, ys[i], actions[i]) {
      forall i | 0 <= i <= |actions| ensures LiveIndex(ys[i].log) {
        LiveSoFar(d, ys, actions, i);
      }
    } else {
      var i :| 0 <= i < |actions| && Registers(ys[i], actions[i]) && !Unclaimed(d, ys[i], actions[i]);
      assert ys[i + 1] == After(d, ys[i], actions[i]);
      if LiveIndex(ys[i].log) {
        ActionKeepsLive(d, ys[i], actions[i]);
        assert !LiveIndex(ys[i + 1].log);
      }
    }
  }
}
