/** Which services and sessions the log service follows (src/log/log-service.cpp). */
module LogAttachments {
  import opened Outcomes
  import opened TextFilter

  /** The string hash, which may collide, and the order in which an ordered map is walked: `pick` is its first key. */
  datatype Env = Env(hash: string -> nat, pick: set<string> -> string)

  /** What makes `pick` the first key of some total order. */
  ghost predicate OrderLaw(env: Env) {
    && (forall s :: s != {} ==> env.pick(s) in s)
    && (forall s, t :: t <= s && env.pick(s) in t ==> env.pick(t) == env.pick(s))
  }

  datatype Service = Service(tag: string, busname: string, interface_: string, objectPath: string)

  datatype Log = Log(attached: map<nat, Service>, index: map<string, nat>, idleDisabled: bool)

  const NEW_LOG: Log := Log(map[], map[], true)

  function TagOf(sender: string, interface_: string): string {
    "[" + sender + "/" + interface_ + "]"
  }

  function HashOf(env: Env, sender: string, interface_: string): nat {
    env.hash(TagOf(sender, interface_))
  }

  // ---------------------------------------------------------------- removal

  function Matching(index: map<string, nat>, h: nat): set<string> {
    set p | p in index && index[p] == h
  }

  function First(env: Env, index: map<string, nat>, h: nat): string {
    env.pick(Matching(index, h))
  }

  /** Of every hash in `gone` the first index entry is erased. */
  function Erased(env: Env, index: map<string, nat>, gone: set<nat>): map<string, nat> {
    map p | p in index && !(index[p] in gone && p == First(env, index, index[p])) :: index[p]
  }

  /** The services in `gone` and an index entry of each are dropped. */
  function WithoutServices(env: Env, l: Log, gone: set<nat>): Log {
    Log(l.attached - gone, Erased(env, l.index, gone), l.idleDisabled || (gone != {} && l.attached - gone == map[]))
  }

  /** The services whose process is no longer on the bus. */
  function Vanished(attached: map<nat, Service>, alive: string -> bool): set<nat> {
    set h | h in attached && attached[h].busname != "" && !alive(attached[h].busname)
  }

  function Cleaned(env: Env, l: Log, alive: string -> bool): Log {
    WithoutServices(env, l, Vanished(l.attached, alive))
  }

  // ---------------------------------------------------------------- the methods as functions

  function Attached(env: Env, l: Log, alive: string -> bool, sender: string, rawInterface: string): (Log, bool) {
    var c := Cleaned(env, l, alive);
    var name := FilterCtrlChars(rawInterface, true);
    var h := HashOf(env, sender, name);
    if !alive(sender) || h in c.attached then (c, false)
    else (Log(c.attached[h := Service(TagOf(sender, name), sender, name, "")], c.index, false), true)
  }

  function Assigned(env: Env, l: Log, sender: string, interface_: string, path: string): Log
    requires HashOf(env, sender, interface_) in l.attached
  {
    var h := HashOf(env, sender, interface_);
    l.(index := l.index[path := h], attached := l.attached[h := l.attached[h].(objectPath := path)])
  }

  function Detached(env: Env, l: Log, alive: string -> bool, sender: string, rawInterface: string): (Log, bool) {
    var h := HashOf(env, sender, FilterCtrlChars(rawInterface, true));
    if h in l.attached && l.attached[h].busname != sender then (l, false)
    else
      var c := Cleaned(env, l, alive);
      if h !in c.attached then (c, false) else (WithoutServices(env, c, {h}), true)
  }

  /** The service whose events a session's proxy is added to. */
  function ProxyTarget(l: Log, path: string): Option<Service> {
    if path in l.index && l.index[path] in l.attached then Some(l.attached[l.index[path]]) else None
  }

  // ---------------------------------------------------------------- every run

  datatype Step =
    | Attach(alive: string -> bool, sender: string, rawInterface: string)
    | AssignSession(sender: string, interface_: string, path: string)
    | Detach(alive: string -> bool, sender: string, rawInterface: string)
    | GetSubscriberList(alive: string -> bool)

  /** A caller that is not attached makes AssignSession dereference a null pointer. */
  predicate Defined(env: Env, l: Log, step: Step) {
    step.AssignSession? ==> HashOf(env, step.sender, step.interface_) in l.attached
  }

  function Next(env: Env, l: Log, step: Step): Log
    requires Defined(env, l, step)
  {
    match step
    case Attach(alive, sender, name) => Attached(env, l, alive, sender, name).0
    case AssignSession(sender, name, path) => Assigned(env, l, sender, name, path)
    case Detach(alive, sender, name) => Detached(env, l, alive, sender, name).0
    case GetSubscriberList(alive) => Cleaned(env, l, alive)
  }

  ghost predicate IsRun(env: Env, ls: seq<Log>, steps: seq<Step>) {
    && |ls| == |steps| + 1 && ls[0] == NEW_LOG
    && forall i :: 0 <= i < |steps| ==> Defined(env, ls[i], steps[i]) && ls[i + 1] == Next(env, ls[i], steps[i])
  }

  /**
   * Each service is stored under its own tag's hash and the idle detector skips this object iff nothing is
   * attached.
   */
  ghost predicate Sound(env: Env, l: Log) {
    && (forall h :: h in l.attached ==>
          env.hash(l.attached[h].tag) == h
            && l.attached[h].tag == TagOf(l.attached[h].busname, l.attached[h].interface_))
    && (l.idleDisabled <==> l.attached == map[])
  }

  lemma DropKeepsSound(env: Env, l: Log, gone: set<nat>)
    requires Sound(env, l)
    ensures Sound(env, WithoutServices(env, l, gone))
  {
    var d := WithoutServices(env, l, gone);
    if gone == {} {
      assert d.attached == l.attached;
    } else if l.attached == map[] {
      assert d.attached == map[];
    }
  }

  lemma StepKeepsSound(env: Env, l: Log, step: Step)
    requires Sound(env, l) && Defined(env, l, step)
    ensures Sound(env, Next(env, l, step))
  {
    if step.AssignSession? {
      var h := HashOf(env, step.sender, step.interface_);
      assert h in Next(env, l, step).attached;
    } else {
      DropKeepsSound(env, l, Vanished(l.attached, step.alive));
      var c := Cleaned(env, l, step.alive);
      if step.Attach? {
        var h := HashOf(env, step.sender, FilterCtrlChars(step.rawInterface, true));
        if step.alive(step.sender) && h !in c.attached {
          assert h in Next(env, l, step).attached;
        }
      } else if step.Detach? {
        DropKeepsSound(env, c, {HashOf(env, step.sender, FilterCtrlChars(step.rawInterface, true))});
      }
    }
  }

  /** In every run, for every hash function. */
  lemma {:induction false} RunIsSound(env: Env, ls: seq<Log>, steps: seq<Step>, i: nat)
    requires IsRun(env, ls, steps) && i <= |steps|
    ensures Sound(env, ls[i])
  {
    if i > 0 {
      RunIsSound(env, ls, steps, i - 1);
      StepKeepsSound(env, ls[i - 1], steps[i - 1]);
    }
  }

  /**
   * Detach takes away the caller's own service and vanished ones, nothing else; what stays is unchanged.
   * It succeeds exactly for a caller that is attached under that hash and still on the bus.
   */
  lemma DetachIsOwn(env: Env, l: Log, alive: string -> bool, sender: string, rawInterface: string)
    ensures var (r, ok) := Detached(env, l, alive, sender, rawInterface);
      var h := HashOf(env, sender, FilterCtrlChars(rawInterface, true));
      && (ok <==> h in l.attached && l.attached[h].busname == sender && (sender == "" || alive(sender)))
      && (ok ==> h !in r.attached)
      && (forall k :: k in l.attached && k !in r.attached ==>
            (k == h && l.attached[k].busname == sender) || !alive(l.attached[k].busname))
      && (forall k :: k in r.attached ==> k in l.attached && r.attached[k] == l.attached[k])
  {
  }

  /**
   * Attach succeeds exactly for a caller on the bus whose hash no other process on the bus holds.  It then
   * follows that caller; everything else it does is the cleanup.
   */
  lemma AttachIsExact(env: Env, l: Log, alive: string -> bool, sender: string, rawInterface: string)
    ensures var (r, ok) := Attached(env, l, alive, sender, rawInterface);
      var h := HashOf(env, sender, FilterCtrlChars(rawInterface, true));
      && (ok <==> alive(sender) && (h in l.attached ==> l.attached[h].busname != "" && !alive(l.attached[h].busname)))
      && (ok ==> h in r.attached && r.attached[h].busname == sender && !r.idleDisabled)
      && (forall k :: k in l.attached && k !in r.attached ==> !alive(l.attached[k].busname))
      && (forall k :: k in r.attached && (k != h || !ok) ==> k in l.attached && r.attached[k] == l.attached[k])
  {
  }

  /** What is followed from then on: the caller under its filtered interface, without a session. */
  lemma AttachedAs(env: Env, l: Log, alive: string -> bool, sender: string, rawInterface: string)
    requires Attached(env, l, alive, sender, rawInterface).1
    ensures var r, name := Attached(env, l, alive, sender, rawInterface).0, FilterCtrlChars(rawInterface, true);
      && env.hash("[" + sender + "/" + name + "]") in r.attached
      && r.attached[env.hash("[" + sender + "/" + name + "]")] ==
           Service("[" + sender + "/" + name + "]", sender, name, "")
      && r.index == Cleaned(env, l, alive).index
  {
  }

  /**
   * A session that is assigned to an attached service is found from then on, under its path and with the path it
   * was given; every other path leads where it led before, except that the service itself carries the new path.
   */
  lemma AssignedIsFound(env: Env, l: Log, sender: string, interface_: string, path: string, other: string)
    requires HashOf(env, sender, interface_) in l.attached
    ensures var h, r := HashOf(env, sender, interface_), Assigned(env, l, sender, interface_, path);
      && ProxyTarget(r, path) == Some(l.attached[h].(objectPath := path))
      && (other != path ==>
        ProxyTarget(r, other) ==
          if other in l.index && l.index[other] == h then Some(l.attached[h].(objectPath := path))
          else ProxyTarget(l, other))
      && r.attached.Keys == l.attached.Keys && r.idleDisabled == l.idleDisabled
  {
  }

  /** A removal leaves the sessions of all other services where they are. */
  lemma RemovalKeepsOthers(env: Env, l: Log, gone: set<nat>, path: string)
    requires path in l.index && l.index[path] !in gone
    ensures ProxyTarget(WithoutServices(env, l, gone), path) == ProxyTarget(l, path)
  {
  }

  /** And no session that was not there before comes in by one. */
  lemma RemovalAddsNothing(env: Env, l: Log, gone: set<nat>, path: string)
    requires ProxyTarget(WithoutServices(env, l, gone), path).Some?
    ensures ProxyTarget(WithoutServices(env, l, gone), path) == ProxyTarget(l, path) && l.index[path] !in gone
  {
  }

  /** With a live index nobody finds the session of a service that has detached. */
  lemma DetachedIsNotFound(env: Env, l: Log, alive: string -> bool, sender: string, rawInterface: string, path: string)
    requires OrderLaw(env) && LiveIndex(l) && Detached(env, l, alive, sender, rawInterface).1
    requires path in l.index && l.index[path] == HashOf(env, sender, FilterCtrlChars(rawInterface, true))
    ensures path !in Detached(env, l, alive, sender, rawInterface).0.index
  {
    var h, c := HashOf(env, sender, FilterCtrlChars(rawInterface, true)), Cleaned(env, l, alive);
    DropKeepsIndex(env, l, Vanished(l.attached, alive));
    if path in c.index {
      MatchingIsSingle(env, c, path);
    }
  }

  /** The clean-up removes exactly the services whose process has left the bus and leaves the others as they are. */
  lemma CleanupIsExact(env: Env, l: Log, alive: string -> bool, h: nat)
    ensures var c := Cleaned(env, l, alive);
      && (h in c.attached <==> h in l.attached && (l.attached[h].busname == "" || alive(l.attached[h].busname)))
      && (h in c.attached ==> c.attached[h] == l.attached[h])
  {
  }

  /** Whoever asks to detach the service of another process changes nothing at all. */
  lemma ForeignDetachIsIgnored(env: Env, l: Log, alive: string -> bool, sender: string, rawInterface: string)
    requires var h := HashOf(env, sender, FilterCtrlChars(rawInterface, true));
      h in l.attached && l.attached[h].busname != sender
    ensures Detached(env, l, alive, sender, rawInterface) == (l, false)
  {
  }

  /** The only service under its hash until it detaches itself or leaves the bus. */
  lemma {:induction false} StaysAttached(env: Env, ls: seq<Log>, steps: seq<Step>, h: nat, i: nat, j: nat)
    requires IsRun(env, ls, steps) && i <= j <= |steps| && h in ls[i].attached
    requires forall k :: i <= k < j ==>
      && (steps[k].AssignSession? || steps[k].alive(ls[i].attached[h].busname))
      && (steps[k].Detach? ==> steps[k].sender != ls[i].attached[h].busname)
    ensures h in ls[j].attached
    ensures ls[j].attached[h].(objectPath := "") == ls[i].attached[h].(objectPath := "")
  {
    if i < j {
      StaysAttached(env, ls, steps, h, i, j - 1);
      var l, step := ls[j - 1], steps[j - 1];
      assert ls[j] == Next(env, l, step);
      assert l.attached[h].busname == ls[i].attached[h].busname;
      if step.Detach? {
        DetachIsOwn(env, l, step.alive, step.sender, step.rawInterface);
      }
    }
  }

  // ---------------------------------------------------------------- the session index

  /** Every index entry refers to a live service, the one that was given this very session. */
  ghost predicate LiveIndex(l: Log) {
    forall p :: p in l.index ==> l.index[p] in l.attached && l.attached[l.index[p]].objectPath == p
  }

  /** No index entry refers to a service that is gone. */
  ghost predicate NoDangling(l: Log) {
    forall p :: p in l.index ==> l.index[p] in l.attached
  }

  lemma MatchingIsSingle(env: Env, l: Log, p: string)
    requires OrderLaw(env) && LiveIndex(l) && p in l.index
    ensures First(env, l.index, l.index[p]) == p
  {
    var m := Matching(l.index, l.index[p]);
    assert p in m && env.pick(m) in m;
  }

  lemma DropKeepsIndex(env: Env, l: Log, gone: set<nat>)
    requires OrderLaw(env) && LiveIndex(l)
    ensures LiveIndex(WithoutServices(env, l, gone))
  {
    var d := WithoutServices(env, l, gone);
    forall p | p in d.index ensures d.index[p] in d.attached && d.attached[d.index[p]].objectPath == p {
      MatchingIsSingle(env, l, p);
    }
  }

  /**
   * A removal leaves no dangling entry exactly when each removed service has at most one entry: only the
   * first match is erased.
   */
  lemma RemovalIsCleanIffOneEntry(env: Env, l: Log, gone: set<nat>)
    requires OrderLaw(env) && NoDangling(l)
    ensures NoDangling(WithoutServices(env, l, gone)) <==>
            forall p, q :: p in l.index && q in l.index && l.index[p] == l.index[q] && l.index[p] in gone ==> p == q
  {
    var d := WithoutServices(env, l, gone);
    forall p | p in l.index && l.index[p] in gone
      ensures p in d.index <==> p != First(env, l.index, l.index[p])
      ensures First(env, l.index, l.index[p]) in Matching(l.index, l.index[p])
    {
      assert p in Matching(l.index, l.index[p]);
    }
    if NoDangling(d) {
      forall p, q | p in l.index && q in l.index && l.index[p] == l.index[q] && l.index[p] in gone ensures p == q {
        assert p !in d.index && q !in d.index;
      }
    } else {
      var p :| p in d.index && d.index[p] !in d.attached;
      var q := First(env, l.index, l.index[p]);
      assert q in l.index && l.index[q] == l.index[p] && p != q;
    }
  }

  /** Giving a service a session keeps the index live exactly when the service has no other session. */
  lemma AssignKeepsIndex(env: Env, l: Log, sender: string, interface_: string, path: string)
    requires LiveIndex(l) && HashOf(env, sender, interface_) in l.attached
    ensures var h := HashOf(env, sender, interface_);
      LiveIndex(Assigned(env, l, sender, interface_, path)) <==>
        l.attached[h].objectPath == path || l.attached[h].objectPath !in l.index
          || l.index[l.attached[h].objectPath] != h
  {
    var h := HashOf(env, sender, interface_);
    var r := Assigned(env, l, sender, interface_, path);
    var former := l.attached[h].objectPath;
    if former != path && former in l.index && l.index[former] == h {
      assert former in r.index && r.index[former] == h;
    } else {
      forall p | p in r.index ensures r.index[p] in r.attached && r.attached[r.index[p]].objectPath == p {
        assert p != path ==> p in l.index;
      }
    }
  }

  /** The service has not been given another session since it attached. */
  predicate FirstSession(env: Env, l: Log, step: Step)
    requires Defined(env, l, step)
  {
    step.AssignSession? ==>
      var s := l.attached[HashOf(env, step.sender, step.interface_)];
      s.objectPath == "" || s.objectPath == step.path
  }

  /** D-Bus object paths are never empty. */
  ghost predicate ProperPaths(l: Log) {
    "" !in l.index
  }

  lemma StepKeepsIndex(env: Env, l: Log, step: Step)
    requires OrderLaw(env) && LiveIndex(l) && ProperPaths(l)
    requires Defined(env, l, step) && FirstSession(env, l, step) && (step.AssignSession? ==> step.path != "")
    ensures LiveIndex(Next(env, l, step)) && ProperPaths(Next(env, l, step))
  {
    if step.AssignSession? {
      AssignKeepsIndex(env, l, step.sender, step.interface_, step.path);
    } else {
      DropKeepsIndex(env, l, Vanished(l.attached, step.alive));
      if step.Detach? {
        DropKeepsIndex(env, Cleaned(env, l, step.alive),
                       {HashOf(env, step.sender, FilterCtrlChars(step.rawInterface, true))});
      }
    }
  }

  lemma {:induction false} RunKeepsIndex(env: Env, ls: seq<Log>, steps: seq<Step>, i: nat)
    requires OrderLaw(env) && IsRun(env, ls, steps) && i <= |steps|
    requires forall j :: 0 <= j < i && steps[j].AssignSession? ==>
      steps[j].path != "" && FirstSession(env, ls[j], steps[j])
    ensures LiveIndex(ls[i]) && ProperPaths(ls[i])
  {
    if i > 0 {
      RunKeepsIndex(env, ls, steps, i - 1);
      StepKeepsIndex(env, ls[i - 1], steps[i - 1]);
    }
  }

  ghost predicate AssignedBefore(env: Env, steps: seq<Step>, i: nat, h: nat)
    requires i <= |steps|
  {
    exists j :: 0 <= j < i && steps[j].AssignSession? && HashOf(env, steps[j].sender, steps[j].interface_) == h
  }

  /** A service has a session only if one was assigned to it. */
  lemma {:induction false} SessionWasAssigned(env: Env, ls: seq<Log>, steps: seq<Step>, i: nat, h: nat)
    requires IsRun(env, ls, steps) && i <= |steps| && h in ls[i].attached && ls[i].attached[h].objectPath != ""
    ensures AssignedBefore(env, steps, i, h)
  {
    if i > 0 {
      var l, step := ls[i - 1], steps[i - 1];
      assert ls[i] == Next(env, l, step);
      if step.AssignSession? && HashOf(env, step.sender, step.interface_) == h {
      } else {
        SessionWasAssigned(env, ls, steps, i - 1, h);
        var j :| 0 <= j < i - 1 && steps[j].AssignSession? && HashOf(env, steps[j].sender, steps[j].interface_) == h;
        assert 0 <= j < i;
      }
    }
  }

  /** In every run in which no two assignments have the same hash, every index entry is live. */
  lemma IndexStaysLive(env: Env, ls: seq<Log>, steps: seq<Step>, i: nat)
    requires OrderLaw(env) && IsRun(env, ls, steps) && i <= |steps|
    requires forall j :: 0 <= j < |steps| && steps[j].AssignSession? ==> steps[j].path != ""
    requires forall j, k :: 0 <= j < k < |steps| && steps[j].AssignSession? && steps[k].AssignSession? ==>
      HashOf(env, steps[j].sender, steps[j].interface_) != HashOf(env, steps[k].sender, steps[k].interface_)
    ensures LiveIndex(ls[i])
    ensures forall p :: p in ls[i].index ==> ProxyTarget(ls[i], p).Some? && ProxyTarget(ls[i], p).value.objectPath == p
  {
    forall j | 0 <= j < i && steps[j].AssignSession? ensures FirstSession(env, ls[j], steps[j]) {
      var h := HashOf(env, steps[j].sender, steps[j].interface_);
      if ls[j].attached[h].objectPath != "" {
        SessionWasAssigned(env, ls, steps, j, h);
      }
    }
    RunKeepsIndex(env, ls, steps, i);
  }

  /** Senders are bus names, which have no slash, so a tag tells its sender and interface. */
  lemma TagIsInjective(sender: string, interface_: string, other: string, otherInterface: string)
    requires '/' !in sender && '/' !in other && TagOf(sender, interface_) == TagOf(other, otherInterface)
    ensures sender == other && interface_ == otherInterface
  {
    var tag := TagOf(sender, interface_);
    FirstSlash(sender, interface_);
    FirstSlash(other, otherInterface);
    assert tag[1 + |sender|] == '/' && tag[1 + |other|] == '/';
    assert |sender| == |other|;
  }

  /** The tag's first slash ends the sender. */
  lemma FirstSlash(sender: string, interface_: string)
    requires '/' !in sender
    ensures var tag := TagOf(sender, interface_);
      && |tag| == |sender| + |interface_| + 3 && tag[1 + |sender|] == '/'
      && (forall i :: 1 <= i <= |sender| ==> tag[i] != '/')
      && tag[1..1 + |sender|] == sender && tag[2 + |sender|..|tag| - 1] == interface_
  {
    var tag := TagOf(sender, interface_);
    assert forall i :: 1 <= i <= |sender| ==> tag[i] == sender[i - 1] && sender[i - 1] in sender;
  }

  ghost predicate BothAssign(steps: seq<Step>, j: nat, k: nat) {
    j < k < |steps| && steps[j].AssignSession? && steps[k].AssignSession?
  }

  /** Two different tags that are assigned a session in this run have different hashes. */
  ghost predicate TagsApart(env: Env, steps: seq<Step>) {
    forall j: nat, k: nat :: BothAssign(steps, j, k) ==>
      var s, t := TagOf(steps[j].sender, steps[j].interface_), TagOf(steps[k].sender, steps[k].interface_);
      env.hash(s) == env.hash(t) ==> s == t
  }

  /** Unless tags of the run collide it is enough that each client process is assigned at most once. */
  lemma OneSessionPerClient(env: Env, ls: seq<Log>, steps: seq<Step>, i: nat)
    requires OrderLaw(env) && IsRun(env, ls, steps) && i <= |steps| && TagsApart(env, steps)
    requires forall j :: 0 <= j < |steps| && steps[j].AssignSession? ==> steps[j].path != "" && '/' !in steps[j].sender
    requires forall j: nat, k: nat :: BothAssign(steps, j, k) ==> steps[j].sender != steps[k].sender
    ensures LiveIndex(ls[i])
  {
    forall j, k | 0 <= j < k < |steps| && steps[j].AssignSession? && steps[k].AssignSession?
      ensures HashOf(env, steps[j].sender, steps[j].interface_) != HashOf(env, steps[k].sender, steps[k].interface_)
    {
      assert BothAssign(steps, j, k);
      if TagOf(steps[j].sender, steps[j].interface_) == TagOf(steps[k].sender, steps[k].interface_) {
        TagIsInjective(steps[j].sender, steps[j].interface_, steps[k].sender, steps[k].interface_);
      }
    }
    IndexStaysLive(env, ls, steps, i);
  }

  /** A client that is assigned two sessions leaves an index entry behind when it detaches. */
  lemma SecondSessionDangles(env: Env, l: Log, alive: string -> bool, sender: string, rawInterface: string, p: string,
                             q: string)
    requires OrderLaw(env) && LiveIndex(l) && sender != "" && alive(sender)
    requires forall h :: h in l.attached ==> alive(l.attached[h].busname)
    requires var h := HashOf(env, sender, FilterCtrlChars(rawInterface, true));
      h in l.attached && l.attached[h].busname == sender
    requires p != q
    ensures var name := FilterCtrlChars(rawInterface, true);
      var twice := Assigned(env, Assigned(env, l, sender, name, p), sender, name, q);
      var (r, ok) := Detached(env, twice, alive, sender, rawInterface);
      ok && !NoDangling(r)
  {
    var name := FilterCtrlChars(rawInterface, true);
    var h := HashOf(env, sender, name);
    var twice := Assigned(env, Assigned(env, l, sender, name, p), sender, name, q);
    assert Vanished(twice.attached, alive) == {};
    assert Cleaned(env, twice, alive).attached == twice.attached;
    assert Cleaned(env, twice, alive).index == twice.index;
    RemovalIsCleanIffOneEntry(env, Cleaned(env, twice, alive), {h});
    assert twice.index[p] == h && twice.index[q] == h;
  }

  // ---------------------------------------------------------------- removing one after another

  function DropEach(env: Env, l: Log, hs: seq<nat>): Log {
    if hs == [] then l else WithoutServices(env, DropEach(env, l, hs[..|hs| - 1]), {hs[|hs| - 1]})
  }

  /** Erasing the first entry of one more hash does not disturb the others. */
  lemma ErasedTogether(env: Env, index: map<string, nat>, gone: set<nat>, h: nat)
    requires h !in gone
    ensures Erased(env, Erased(env, index, gone), {h}) == Erased(env, index, gone + {h})
  {
    var e := Erased(env, index, gone);
    assert Matching(e, h) == Matching(index, h);
  }

  lemma ErasedOne(env: Env, index: map<string, nat>, h: nat)
    requires OrderLaw(env)
    ensures Erased(env, index, {h}) == if Matching(index, h) == {} then index else index - {First(env, index, h)}
  {
    assert forall p :: p in index && index[p] == h ==> p in Matching(index, h);
  }

  lemma {:induction false} DropEachIsOneDrop(env: Env, l: Log, hs: seq<nat>)
    requires NoDuplicates(hs) && forall h :: h in hs ==> h in l.attached
    ensures var gone := set h | h in hs;
      DropEach(env, l, hs) == WithoutServices(env, l, gone)
  {
    var gone := set h | h in hs;
    if hs == [] {
      assert Erased(env, l.index, {}) == l.index && l.attached - {} == l.attached;
    } else {
      var init, h := hs[..|hs| - 1], hs[|hs| - 1];
      DropEachIsOneDrop(env, l, init);
      var before := set k | k in init;
      assert gone == before + {h} && h !in before;
      ErasedTogether(env, l.index, before, h);
      assert l.attached - gone == (l.attached - before) - {h};
    }
  }

  lemma DropVanished(env: Env, l: Log, alive: string -> bool, hs: seq<nat>)
    requires Enumerates(hs, Vanished(l.attached, alive))
    ensures DropEach(env, l, hs) == Cleaned(env, l, alive)
  {
    DropEachIsOneDrop(env, l, hs);
    assert (set h | h in hs) == Vanished(l.attached, alive);
  }

  function Hashes(env: Env, tags: seq<string>): (r: seq<nat>)
    ensures |r| == |tags| && forall i :: 0 <= i < |r| ==> r[i] == env.hash(tags[i])
  {
    seq(|tags|, i requires 0 <= i < |tags| => env.hash(tags[i]))
  }

  lemma StillAttached(env: Env, l: Log, hs: seq<nat>, i: nat)
    requires NoDuplicates(hs) && i < |hs| && forall h :: h in hs ==> h in l.attached
    ensures hs[i] in DropEach(env, l, hs[..i]).attached
  {
    DropEachIsOneDrop(env, l, hs[..i]);
    assert hs[i] in hs && hs[i] !in hs[..i];
  }

  // ---------------------------------------------------------------- the object

  class ServiceHandler {
    const env: Env
    var attached: map<nat, Service>
    var sessionIndex: map<string, nat>
    var idleDisabled: bool

    function Value(): Log
      reads this
    {
      Log(attached, sessionIndex, idleDisabled)
    }

    constructor (env: Env)
      ensures Value() == NEW_LOG && this.env == env
    {
      this.env := env;
      attached, sessionIndex, idleDisabled := map[], map[], true;
    }

    /** `std::find_if` over the index: the first entry with this hash. */
    method FindEntry(h: nat) returns (found: Option<string>)
      requires OrderLaw(env)
      ensures found == if Matching(sessionIndex, h) == {} then None else Some(First(env, sessionIndex, h))
    {
      var rest := sessionIndex.Keys;
      while rest != {}
        invariant Matching(sessionIndex, h) <= rest <= sessionIndex.Keys
      {
        var p := env.pick(rest);
        if sessionIndex[p] == h {
          assert p in Matching(sessionIndex, h);
          return Some(p);
        }
        rest := rest - {p};
      }
      found := None;
    }

    method RemoveLogSubscription(tag: string) returns (ok: bool)
      requires OrderLaw(env)
      modifies this
      ensures ok <==> env.hash(tag) in old(attached)
      ensures ok ==> Value() == WithoutServices(env, old(Value()), {env.hash(tag)})
      ensures !ok ==> attached == old(attached) && idleDisabled == old(idleDisabled)
    {
      var h := env.hash(tag);
      var entry := FindEntry(h);
      ErasedOne(env, sessionIndex, h);
      if entry.Some? {
        sessionIndex := sessionIndex - {entry.value};
      }
      if h !in attached {
        return false;
      }
      attached := attached - {h};
      if |attached| < 1 {
        idleDisabled := true;
      }
      ok := true;
    }

    /** The tags of the services that have left the bus, each stored under its own hash. */
    method CollectVanished(alive: string -> bool, order: seq<nat>) returns (tags: seq<string>)
      requires Sound(env, Value()) && Enumerates(order, attached.Keys)
      ensures Enumerates(Hashes(env, tags), Vanished(attached, alive))
    {
      tags := [];
      for i := 0 to |order|
        invariant NoDuplicates(Hashes(env, tags))
        invariant forall h :: h in Hashes(env, tags) <==> h in order[..i] && h in Vanished(attached, alive)
      {
        EnumeratesMember(order, attached.Keys, i);
        var sub := attached[order[i]];
        assert order[i] !in order[..i];
        if sub.busname != "" && !alive(sub.busname) {
          assert Hashes(env, tags + [sub.tag]) == Hashes(env, tags) + [order[i]];
          tags := tags + [sub.tag];
        }
      }
      assert order[..|order|] == order;
    }

    /** Removes one service after another; no removal misses. */
    method RemoveAll(tags: seq<string>)
      requires OrderLaw(env) && NoDuplicates(Hashes(env, tags)) && forall h :: h in Hashes(env, tags) ==> h in attached
      modifies this
      ensures Value() == DropEach(env, old(Value()), Hashes(env, tags))
    {
      ghost var l, hs := Value(), Hashes(env, tags);
      for i := 0 to |tags|
        invariant Value() == DropEach(env, l, hs[..i])
      {
        assert hs[..i + 1][..i] == hs[..i];
        StillAttached(env, l, hs, i);
        var ok := RemoveLogSubscription(tags[i]);
        assert ok;
      }
      assert hs[..|tags|] == hs;
    }

    /** Removes what has left the bus.  `order` is the order the attachments are walked in. */
    method CleanupServiceSubscriptions(alive: string -> bool, order: seq<nat>)
      requires OrderLaw(env) && Sound(env, Value()) && Enumerates(order, attached.Keys)
      modifies this
      ensures Value() == Cleaned(env, old(Value()), alive)
    {
      ghost var l := Value();
      var tags := CollectVanished(alive, order);
      RemoveAll(tags);
      DropVanished(env, l, alive, Hashes(env, tags));
    }

    method MethodAttach(alive: string -> bool, order: seq<nat>, sender: string, rawInterface: string) returns (ok: bool)
      requires OrderLaw(env) && Sound(env, Value()) && Enumerates(order, attached.Keys)
      modifies this
      ensures Sound(env, Value()) && (Value(), ok) == Attached(env, old(Value()), alive, sender, rawInterface)
    {
      StepKeepsSound(env, Value(), Attach(alive, sender, rawInterface));
      CleanupServiceSubscriptions(alive, order);
      if !alive(sender) {
        return false;
      }
      var name := Filter(rawInterface, true);
      var tag := TagOf(sender, name);
      if env.hash(tag) in attached {
        return false;
      }
      attached := attached[env.hash(tag) := Service(tag, sender, name, "")];
      idleDisabled := false;
      ok := true;
    }

    /**
     * The interface is taken as it comes here.  For a caller that is not attached the source goes on to
     * dereference a null pointer; then the result is false and nothing but the index entry is promised.
     */
    method MethodAssignSession(sender: string, interface_: string, path: string) returns (defined: bool)
      requires Sound(env, Value())
      modifies this
      ensures defined <==> HashOf(env, sender, interface_) in old(attached)
      ensures sessionIndex == old(sessionIndex)[path := HashOf(env, sender, interface_)]
      ensures defined ==> Sound(env, Value()) && Value() == Assigned(env, old(Value()), sender, interface_, path)
    {
      var h := env.hash(TagOf(sender, interface_));
      sessionIndex := sessionIndex[path := h];
      if h !in attached {
        return false;
      }
      StepKeepsSound(env, old(Value()), AssignSession(sender, interface_, path));
      attached := attached[h := attached[h].(objectPath := path)];
      defined := true;
    }

    method MethodDetach(alive: string -> bool, order: seq<nat>, sender: string, rawInterface: string) returns (ok: bool)
      requires OrderLaw(env) && Sound(env, Value()) && Enumerates(order, attached.Keys)
      modifies this
      ensures Sound(env, Value()) && (Value(), ok) == Detached(env, old(Value()), alive, sender, rawInterface)
    {
      StepKeepsSound(env, Value(), Detach(alive, sender, rawInterface));
      var name := Filter(rawInterface, true);
      var tag := TagOf(sender, name);
      var h := env.hash(tag);
      if h in attached && attached[h].busname != sender {
        return false;
      }
      CleanupServiceSubscriptions(alive, order);
      if h !in attached {
        return false;
      }
      ok := RemoveLogSubscription(tag);
    }

    method MethodProxyLogEvents(path: string) returns (target: Option<Service>)
      ensures target == ProxyTarget(Value(), path)
    {
      if path !in sessionIndex || sessionIndex[path] !in attached {
        return None;
      }
      target := Some(attached[sessionIndex[path]]);
    }
  }
}
