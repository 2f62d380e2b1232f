/** Sessions shared by browser tabs: login, logout, the reset after a 401 answer and
    the park switch with its marker (apps/web/lib/auth.ts, apps/web/lib/session-reset.ts).

    What runs between two awaits is one step. Any number of operations of any number
    of tabs interleave at those points, with or without the Web Locks that make
    them take turns. */
module SessionSwitch {
  import opened Options

  type Tab = nat
  type OpId = nat
  type Token = nat

  datatype User = User(park: nat, mode: nat, scope: nat)

  /** The two items of a storage that matter here. */
  datatype Store = Store(token: Option<Token>, user: Option<User>)

  const EMPTY := Store(None, None)

  /** A park switch under way, with what it read when it set the marker. */
  datatype Attempt = Attempt(tab: Tab, park: nat, mode: nat, original: Option<Token>, originalShared: Option<Token>)

  datatype Task =
    | SwitchWaiting(tab: Tab, park: nat)
    | Switching(attempt: Attempt)
    | SwitchFetching(attempt: Attempt, rotated: Token)
    | SwitchPurging(attempt: Attempt, rotated: Token, user: User)
    | SwitchLeaving
    | LoginWaiting(tab: Tab, token: Token)
    | LoginFetching(tab: Tab, token: Token)
    | LoginPurging(tab: Tab, token: Token, user: User)
    | DirectPurging(tab: Tab, token: Token, user: User)
    | LogoutWaiting(tab: Tab)
    | LoggingOut(tab: Tab)
    | ClearWaiting(tab: Tab)
    | ResetWaiting(tab: Tab, request: Option<Token>)
    | Cleaning
    | Finished

  predicate Waits(t: Task) {
    t.SwitchWaiting? || t.LoginWaiting? || t.LogoutWaiting? || t.ClearWaiting? || t.ResetWaiting?
  }

  /** Between the request and the release of the lock. */
  predicate Holds(t: Task) {
    !Waits(t) && !t.Finished? && !t.DirectPurging?
  }

  /** Who touches the marker: an operation under the lock, or a page that stores a
      session or a token without taking it. */
  datatype Actor = Op(id: OpId) | Direct(id: OpId) | Page(tab: Tab)

  /** Everything that writes or removes the marker. */
  datatype What = Marked | Unmarked | Switched(token: Token) | Published(token: Token) | Wiped
  datatype Event = Event(actor: Actor, what: What)

  datatype World = World(
    locks: bool,
    shared: Store,
    marker: Option<OpId>,
    private: map<Tab, Store>,
    ops: map<OpId, Task>,
    log: seq<Event>)

  /** The server's answer to a switch request. */
  datatype Answer = Rotated(token: Token) | NoToken | Rejected | Lost

  datatype Action =
    | Arrive(op: OpId, task: Task)
    | BeginSwitch(op: OpId, accessible: bool)
    | Answered(op: OpId, answer: Answer)
    | Fetched(op: OpId, found: Option<User>)
    | Purged(op: OpId, ok: bool)
    | Leave(op: OpId)
    | BeginLogin(op: OpId)
    | BeginLogout(op: OpId)
    | LogoutAnswered(op: OpId)
    | BeginClear(op: OpId)
    | BeginReset(op: OpId)
    | Cleaned(op: OpId)
    | SetSession(op: OpId, tab: Tab, token: Token, user: User)
    | SetToken(tab: Tab, token: Token, preserve: bool)
    | StoreProfile(tab: Tab, token: Token, user: User)

  function Own(w: World, tab: Tab): Store {
    if tab in w.private then w.private[tab] else EMPTY
  }

  /** The token a tab sends. */
  function GetToken(w: World, tab: Tab): Option<Token> {
    if w.shared.token.Some? then w.shared.token else Own(w, tab).token
  }

  function StoredUser(w: World, tab: Tab): Option<User> {
    if w.shared.user.Some? then w.shared.user else Own(w, tab).user
  }

  function With(w: World, op: OpId, task: Task): World {
    w.(ops := w.ops[op := task])
  }

  function Unmark(w: World, actor: Actor): World {
    w.(marker := None, log := w.log + [Event(actor, Unmarked)])
  }

  function ClearPrivate(w: World, tab: Tab): World {
    w.(private := w.private[tab := EMPTY])
  }

  function Wipe(w: World, tab: Tab, actor: Actor): World {
    ClearPrivate(w, tab).(shared := EMPTY, marker := None, log := w.log + [Event(actor, Wiped)])
  }

  function Publish(w: World, tab: Tab, token: Token, user: User, event: Event): World {
    var store := Store(Some(token), Some(user));
    w.(shared := store, private := w.private[tab := store], marker := None, log := w.log + [event])
  }

  /** Whether other people's offline data has to be purged before the user is stored. */
  predicate ChangesScope(w: World, tab: Tab, user: User) {
    StoredUser(w, tab).Some? && StoredUser(w, tab).value.scope != user.scope
  }

  predicate LockFree(w: World) {
    w.locks ==> forall op | op in w.ops :: !Holds(w.ops[op])
  }

  /** A switch that the server certainly did not carry out. */
  function RejectSwitch(w: World, op: OpId, a: Attempt): World {
    var v := With(if w.marker == Some(op) then Unmark(w, Op(op)) else w, op, Finished);
    var own := Own(w, a.tab).token;
    var sharedCleared := w.shared.token.None? && a.originalShared == a.original;
    if own.Some? && (sharedCleared || (w.shared.token.Some? && own != w.shared.token)) then ClearPrivate(v, a.tab) else v
  }

  /** Whether a stored token is neither the one before the switch nor the one it obtained. */
  predicate IsNewer(token: Option<Token>, a: Attempt, rotated: Option<Token>) {
    token.Some? && token != a.original && token != rotated
  }

  /** Any other failure of a switch. */
  function FailSwitch(w: World, op: OpId, a: Attempt, rotated: Option<Token>): World {
    var own := Own(w, a.tab).token;
    if !IsNewer(GetToken(w, a.tab), a, rotated) && !IsNewer(w.shared.token, a, rotated) then
      With(w, op, LoggingOut(a.tab))
    else if own.Some? && own != w.shared.token then
      With(ClearPrivate(w, a.tab), op, Finished)
    else
      With(w, op, Finished)
  }

  function StartSwitch(w: World, op: OpId, tab: Tab, park: nat, accessible: bool): World {
    var current := StoredUser(w, tab);
    if current.None? || current.value.park == park || !accessible then With(w, op, Finished)
    else
      var attempt := Attempt(tab, park, current.value.mode, GetToken(w, tab), w.shared.token);
      With(w.(marker := Some(op), log := w.log + [Event(Op(op), Marked)]), op, Switching(attempt))
  }

  function SwitchAnswered(w: World, op: OpId, a: Attempt, answer: Answer): World {
    match answer
    case Rotated(token) =>
      if w.marker == Some(op) then With(w, op, SwitchFetching(a, token)) else FailSwitch(w, op, a, Some(token))
    case NoToken => FailSwitch(w, op, a, None)
    case Rejected => RejectSwitch(w, op, a)
    case Lost => FailSwitch(w, op, a, None)
  }

  function PublishSwitch(w: World, op: OpId, a: Attempt, token: Token, user: User): World {
    if w.marker == Some(op) then
      With(Publish(w, a.tab, token, user, Event(Op(op), Switched(token))), op, SwitchLeaving)
    else FailSwitch(w, op, a, Some(token))
  }

  function SwitchFetched(w: World, op: OpId, a: Attempt, token: Token, user: Option<User>): World {
    if user.None? || user.value.mode != a.mode || user.value.park != a.park || w.marker != Some(op) then
      FailSwitch(w, op, a, Some(token))
    else if ChangesScope(w, a.tab, user.value) then With(w, op, SwitchPurging(a, token, user.value))
    else PublishSwitch(w, op, a, token, user.value)
  }

  /** Storing a session outside a switch first withdraws any marker. */
  function SaveSession(w: World, op: OpId, actor: Actor, tab: Tab, token: Token, user: User, purging: Task): World {
    var v := Unmark(w, actor);
    if ChangesScope(v, tab, user) then With(v, op, purging)
    else With(Publish(v, tab, token, user, Event(actor, Published(token))), op, Finished)
  }

  function FetchedUser(w: World, op: OpId, user: Option<User>): World
    requires op in w.ops && (w.ops[op].SwitchFetching? || w.ops[op].LoginFetching?)
  {
    match w.ops[op]
    case SwitchFetching(a, token) => SwitchFetched(w, op, a, token, user)
    case LoginFetching(tab, token) =>
      if user.None? then With(w, op, LoggingOut(tab))
      else SaveSession(w, op, Op(op), tab, token, user.value, LoginPurging(tab, token, user.value))
  }

  function AfterPurge(w: World, op: OpId, ok: bool): World
    requires op in w.ops && (w.ops[op].SwitchPurging? || w.ops[op].LoginPurging? || w.ops[op].DirectPurging?)
  {
    match w.ops[op]
    case SwitchPurging(a, token, user) =>
      if ok then PublishSwitch(w, op, a, token, user) else FailSwitch(w, op, a, Some(token))
    case LoginPurging(tab, token, user) =>
      if ok then With(Publish(w, tab, token, user, Event(Op(op), Published(token))), op, Finished)
      else With(w, op, LoggingOut(tab))
    case DirectPurging(tab, token, user) =>
      if ok then With(Publish(w, tab, token, user, Event(Direct(op), Published(token))), op, Finished)
      else With(w, op, Finished)
  }

  // ---------- the reset after a 401 answer ----------

  /** Whether the rejected request carried the tab's current token. */
  predicate IsCurrentToken(own: Option<Token>, shared: Option<Token>, request: Token) {
    if own.Some? && shared.Some? && own != shared then shared == Some(request)
    else if shared.Some? && shared != Some(request) then false
    else if own.Some? && own != Some(request) then false
    else own == Some(request) || shared == Some(request)
  }

  /** The check drops a private token that disagrees with the shared one, when the
      request carried either. */
  predicate DropsPrivate(own: Option<Token>, shared: Option<Token>, request: Token) {
    own.Some? && shared.Some? && own != shared && (shared == Some(request) || own == Some(request))
  }

  predicate MayReset(w: World, tab: Tab, request: Option<Token>) {
    if request.Some? then IsCurrentToken(Own(w, tab).token, w.shared.token, request.value)
    else Own(w, tab).token.None? && w.shared.token.None?
  }

  function AfterCheck(w: World, tab: Tab, request: Option<Token>): World {
    if request.Some? && DropsPrivate(Own(w, tab).token, w.shared.token, request.value) then ClearPrivate(w, tab) else w
  }

  function Reset(w: World, op: OpId, tab: Tab, request: Option<Token>): World {
    var v := AfterCheck(w, tab, request);
    if MayReset(w, tab, request) then With(Wipe(v, tab, Op(op)), op, Cleaning) else With(v, op, Finished)
  }

  /** An operation asks for the lock; a reset looks at the tokens before it does. */
  function Arrives(w: World, op: OpId, task: Task): World {
    if !task.ResetWaiting? then With(w, op, task)
    else
      var v := AfterCheck(w, task.tab, task.request);
      With(v, op, if MayReset(w, task.tab, task.request) then task else Finished)
  }

  // ---------- steps and runs ----------

  /** Ids are not used twice; a marker that an earlier page left behind is not one of them. */
  predicate IsFresh(w: World, op: OpId) {
    op !in w.ops && w.marker != Some(op)
  }

  predicate Enabled(w: World, a: Action) {
    match a
    case Arrive(op, task) => IsFresh(w, op) && Waits(task)
    case BeginSwitch(op, _) => op in w.ops && w.ops[op].SwitchWaiting? && LockFree(w)
    case Answered(op, _) => op in w.ops && w.ops[op].Switching?
    case Fetched(op, _) => op in w.ops && (w.ops[op].SwitchFetching? || w.ops[op].LoginFetching?)
    case Purged(op, _) => op in w.ops && (w.ops[op].SwitchPurging? || w.ops[op].LoginPurging? || w.ops[op].DirectPurging?)
    case Leave(op) => op in w.ops && w.ops[op].SwitchLeaving?
    case BeginLogin(op) => op in w.ops && w.ops[op].LoginWaiting? && LockFree(w)
    case BeginLogout(op) => op in w.ops && w.ops[op].LogoutWaiting? && LockFree(w)
    case LogoutAnswered(op) => op in w.ops && w.ops[op].LoggingOut?
    case BeginClear(op) => op in w.ops && w.ops[op].ClearWaiting? && LockFree(w)
    case BeginReset(op) => op in w.ops && w.ops[op].ResetWaiting? && LockFree(w)
    case Cleaned(op) => op in w.ops && w.ops[op].Cleaning?
    case SetSession(op, _, _, _) => IsFresh(w, op)
    case SetToken(_, _, _) => true
    case StoreProfile(tab, token, _) => GetToken(w, tab) == Some(token)
  }

  function Apply(w: World, a: Action): World
    requires Enabled(w, a)
  {
    match a
    case Arrive(op, task) => Arrives(w, op, task)
    case BeginSwitch(op, accessible) => StartSwitch(w, op, w.ops[op].tab, w.ops[op].park, accessible)
    case Answered(op, answer) => SwitchAnswered(w, op, w.ops[op].attempt, answer)
    case Fetched(op, user) => FetchedUser(w, op, user)
    case Purged(op, ok) => AfterPurge(w, op, ok)
    case Leave(op) => With(Unmark(w, Op(op)), op, Finished)
    case BeginLogin(op) => With(Unmark(w, Op(op)), op, LoginFetching(w.ops[op].tab, w.ops[op].token))
    case BeginLogout(op) => With(w, op, LoggingOut(w.ops[op].tab))
    case LogoutAnswered(op) => With(Wipe(w, w.ops[op].tab, Op(op)), op, Cleaning)
    case BeginClear(op) => With(Wipe(w, w.ops[op].tab, Op(op)), op, Cleaning)
    case BeginReset(op) => Reset(w, op, w.ops[op].tab, w.ops[op].request)
    case Cleaned(op) => With(w, op, Finished)
    case SetSession(op, tab, token, user) => SaveSession(w, op, Direct(op), tab, token, user, DirectPurging(tab, token, user))
    case SetToken(tab, token, preserve) =>
      var v := w.(shared := w.shared.(token := Some(token)), private := w.private[tab := Own(w, tab).(token := Some(token))]);
      if preserve then v else Unmark(v, Page(tab))
    case StoreProfile(tab, _, user) =>
      w.(shared := w.shared.(user := Some(user)), private := w.private[tab := Own(w, tab).(user := Some(user))])
  }

  /** A world in which nothing has been done yet. Storages and marker are whatever
      earlier pages left. */
  predicate Start(w: World) {
    w.ops == map[] && w.log == []
  }

  /** Steps from anywhere. */
  ghost predicate Steps(run: seq<World>, actions: seq<Action>) {
    && |run| == |actions| + 1
    && forall k {:trigger StepAt(run, actions, k)} | 0 <= k < |actions| :: StepAt(run, actions, k)
  }

  ghost predicate Run(run: seq<World>, actions: seq<Action>) {
    Steps(run, actions) && Start(run[0])
  }

  ghost predicate StepAt(run: seq<World>, actions: seq<Action>, k: nat)
    requires k < |actions| && |run| == |actions| + 1
  {
    Enabled(run[k], actions[k]) && run[k + 1] == Apply(run[k], actions[k])
  }

  // ---------- a switch publishes only under its own marker ----------

  /** The marker as the record of its touches has it; left is what earlier pages left. */
  function MarkerOf(log: seq<Event>, left: Option<OpId>): Option<OpId> {
    if log == [] then left
    else
      var last := log[|log| - 1];
      if last.what.Marked? && last.actor.Op? then Some(last.actor.id) else None
  }

  ghost predicate OwnMarkerOnly(log: seq<Event>) {
    forall k {:trigger log[k].what} | 0 <= k < |log| && log[k].what.Switched? :: UnderOwnMark(log, k)
  }

  /** The touch right before was the publishing switch setting its marker. */
  predicate UnderOwnMark(log: seq<Event>, k: nat)
    requires k < |log|
  {
    0 < k && log[k - 1] == Event(log[k].actor, Marked)
  }

  ghost predicate Honest(w: World, left: Option<OpId>) {
    && w.marker == MarkerOf(w.log, left) && OwnMarkerOnly(w.log)
    && (w.log == [] && w.marker.Some? ==> w.marker.value !in w.ops)
  }

  /** A marker that names an operation was the last touch, and by that operation. */
  lemma MarkerIsLastTouch(w: World, left: Option<OpId>, op: OpId)
    requires Honest(w, left) && op in w.ops && w.marker == Some(op)
    ensures w.log != [] && w.log[|w.log| - 1] == Event(Op(op), Marked)
  {
  }

  lemma AppendIsHonest(w: World, v: World, e: Event, left: Option<OpId>)
    requires Honest(w, left) && v.log == w.log + [e] && v.marker == MarkerOf([e], left)
    requires e.what.Switched? ==> e.actor.Op? && w.marker == Some(e.actor.id) && e.actor.id in w.ops
    ensures Honest(v, left)
  {
    forall k | 0 <= k < |v.log| && v.log[k].what.Switched? ensures UnderOwnMark(v.log, k) {
      if k < |w.log| {
        assert w.log[k].what.Switched?;
        assert UnderOwnMark(w.log, k);
      } else {
        MarkerIsLastTouch(w, left, e.actor.id);
      }
    }
  }

  /** A failing switch leaves the marker and the record alone until it logs out. */
  lemma FailureTouchesNothing(w: World, op: OpId, a: Attempt, rotated: Option<Token>)
    ensures var v := FailSwitch(w, op, a, rotated);
      && v.log == w.log && v.marker == w.marker && v.shared == w.shared && v.locks == w.locks
      && (v.ops == w.ops[op := LoggingOut(a.tab)] || v.ops == w.ops[op := Finished])
  {
  }

  lemma PublishSwitchIsHonest(w: World, op: OpId, a: Attempt, token: Token, user: User, left: Option<OpId>)
    requires Honest(w, left) && op in w.ops
    ensures Honest(PublishSwitch(w, op, a, token, user), left)
  {
    FailureTouchesNothing(w, op, a, Some(token));
    if w.marker == Some(op) {
      AppendIsHonest(w, PublishSwitch(w, op, a, token, user), Event(Op(op), Switched(token)), left);
    }
  }

  lemma SaveIsHonest(w: World, op: OpId, actor: Actor, tab: Tab, token: Token, user: User, purging: Task, left: Option<OpId>)
    requires Honest(w, left)
    ensures Honest(SaveSession(w, op, actor, tab, token, user, purging), left)
  {
    var v := Unmark(w, actor);
    AppendIsHonest(w, v, Event(actor, Unmarked), left);
    assert v.log[|w.log|] == Event(actor, Unmarked);
    if !ChangesScope(v, tab, user) {
      AppendIsHonest(v, SaveSession(w, op, actor, tab, token, user, purging), Event(actor, Published(token)), left);
    }
  }

  lemma SwitchStepIsHonest(w: World, a: Action, left: Option<OpId>)
    requires Honest(w, left) && Enabled(w, a) && (a.BeginSwitch? || a.Answered? || a.Leave?)
    ensures Honest(Apply(w, a), left)
  {
    match a
    case BeginSwitch(op, _) =>
      if Apply(w, a).log != w.log {
        AppendIsHonest(w, Apply(w, a), Event(Op(op), Marked), left);
      }
    case Answered(op, answer) =>
      FailureTouchesNothing(w, op, w.ops[op].attempt, if answer.Rotated? then Some(answer.token) else None);
      if answer.Rejected? && w.marker == Some(op) {
        AppendIsHonest(w, Apply(w, a), Event(Op(op), Unmarked), left);
      }
    case Leave(op) =>
      AppendIsHonest(w, Apply(w, a), Event(Op(op), Unmarked), left);
  }

  lemma FetchedIsHonest(w: World, op: OpId, user: Option<User>, left: Option<OpId>)
    requires Honest(w, left) && Enabled(w, Fetched(op, user))
    ensures Honest(FetchedUser(w, op, user), left)
  {
    match w.ops[op]
    case SwitchFetching(attempt, token) =>
      FailureTouchesNothing(w, op, attempt, Some(token));
      if user.Some? {
        PublishSwitchIsHonest(w, op, attempt, token, user.value, left);
      }
    case LoginFetching(tab, token) =>
      if user.Some? {
        SaveIsHonest(w, op, Op(op), tab, token, user.value, LoginPurging(tab, token, user.value), left);
      }
  }

  lemma PurgedIsHonest(w: World, op: OpId, ok: bool, left: Option<OpId>)
    requires Honest(w, left) && Enabled(w, Purged(op, ok))
    ensures Honest(AfterPurge(w, op, ok), left)
  {
    match w.ops[op]
    case SwitchPurging(attempt, token, user) =>
      FailureTouchesNothing(w, op, attempt, Some(token));
      PublishSwitchIsHonest(w, op, attempt, token, user, left);
    case LoginPurging(tab, token, user) =>
      if ok {
        AppendIsHonest(w, AfterPurge(w, op, ok), Event(Op(op), Published(token)), left);
      }
    case DirectPurging(tab, token, user) =>
      if ok {
        AppendIsHonest(w, AfterPurge(w, op, ok), Event(Direct(op), Published(token)), left);
      }
  }

  lemma ResetIsHonest(w: World, op: OpId, tab: Tab, request: Option<Token>, left: Option<OpId>)
    requires Honest(w, left) && op in w.ops
    ensures Honest(Reset(w, op, tab, request), left)
  {
    if MayReset(w, tab, request) {
      AppendIsHonest(w, Reset(w, op, tab, request), Event(Op(op), Wiped), left);
    }
  }

  lemma StepIsHonest(w: World, a: Action, left: Option<OpId>)
    requires Honest(w, left) && Enabled(w, a)
    ensures Honest(Apply(w, a), left)
  {
    match a
    case BeginSwitch(_, _) => SwitchStepIsHonest(w, a, left);
    case Answered(_, _) => SwitchStepIsHonest(w, a, left);
    case Leave(_) => SwitchStepIsHonest(w, a, left);
    case Fetched(op, user) => FetchedIsHonest(w, op, user, left);
    case Purged(op, ok) => PurgedIsHonest(w, op, ok, left);
    case BeginLogin(op) => AppendIsHonest(w, Apply(w, a), Event(Op(op), Unmarked), left);
    case LogoutAnswered(op) => AppendIsHonest(w, Apply(w, a), Event(Op(op), Wiped), left);
    case BeginClear(op) => AppendIsHonest(w, Apply(w, a), Event(Op(op), Wiped), left);
    case BeginReset(op) => ResetIsHonest(w, op, w.ops[op].tab, w.ops[op].request, left);
    case SetSession(op, tab, token, user) => SaveIsHonest(w, op, Direct(op), tab, token, user, DirectPurging(tab, token, user), left);
    case SetToken(tab, _, preserve) =>
      if !preserve {
        AppendIsHonest(w, Apply(w, a), Event(Page(tab), Unmarked), left);
      }
    case _ =>
  }

  lemma {:induction false} RunIsHonest(run: seq<World>, actions: seq<Action>)
    requires Run(run, actions)
    ensures Honest(run[|actions|], run[0].marker)
  {
    if actions != [] {
      RunPrefix(run, actions);
      RunIsHonest(run[..|actions|], actions[..|actions| - 1]);
      assert StepAt(run, actions, |actions| - 1);
      StepIsHonest(run[|actions| - 1], actions[|actions| - 1], run[0].marker);
    }
  }

  lemma RunPrefix(run: seq<World>, actions: seq<Action>)
    requires Steps(run, actions) && actions != []
    ensures Steps(run[..|actions|], actions[..|actions| - 1])
  {
    var shorter, fewer := run[..|actions|], actions[..|actions| - 1];
    forall k | 0 <= k < |fewer| ensures StepAt(shorter, fewer, k) {
      assert StepAt(run, actions, k);
    }
  }

  /** In any interleaving, with or without locks: when a switch has published its
      token, nothing whatever had touched the marker since that switch set it -
      no login, logout, reset, other switch or other stored session. */
  lemma CancelledSwitchNeverPublishes(run: seq<World>, actions: seq<Action>, k: nat)
    requires Run(run, actions) && k < |run[|actions|].log| && run[|actions|].log[k].what.Switched?
    ensures k > 0 && run[|actions|].log[k - 1] == Event(run[|actions|].log[k].actor, Marked)
  {
    RunIsHonest(run, actions);
  }

  // ---------- what the steps of a switch come to ----------

  /** A session is stored, shared and private, and the marker withdrawn. */
  ghost predicate Stores(w: World, v: World, op: OpId, tab: Tab, token: Token, user: User, event: Event, next: Task) {
    && v.shared == Store(Some(token), Some(user)) && v.private == w.private[tab := Store(Some(token), Some(user))]
    && v.marker == None && v.log == w.log + [event]
    && v.ops == w.ops[op := next] && v.locks == w.locks
  }

  /** Nothing but the task has changed. */
  ghost predicate GoesOn(w: World, v: World, op: OpId, next: Task) {
    v == w.(ops := w.ops[op := next])
  }

  /** A user of another data scope is stored: the shared one, or else the tab's own. */
  ghost predicate OtherScopeStored(w: World, tab: Tab, user: User) {
    if w.shared.user.Some? then w.shared.user.value.scope != user.scope
    else tab in w.private && w.private[tab].user.Some? && w.private[tab].user.value.scope != user.scope
  }

  /** The token is one that the failed switch knows. */
  predicate Known(token: Token, a: Attempt, rotated: Option<Token>) {
    a.original == Some(token) || rotated == Some(token)
  }

  /** The tab would send a token that the failed switch does not know. */
  ghost predicate SendsUnknown(w: World, a: Attempt, rotated: Option<Token>) {
    if w.shared.token.Some? then !Known(w.shared.token.value, a, rotated)
    else a.tab in w.private && w.private[a.tab].token.Some? && !Known(w.private[a.tab].token.value, a, rotated)
  }

  /** A failed switch: it logs out exactly if the tab sends nothing that the switch does
      not know; otherwise it is over, and the tab has dropped its own session exactly if
      that had a token other than the shared one. */
  ghost predicate Fails(w: World, v: World, op: OpId, a: Attempt, rotated: Option<Token>) {
    if !SendsUnknown(w, a, rotated) then GoesOn(w, v, op, LoggingOut(a.tab))
    else if a.tab in w.private && w.private[a.tab].token.Some? && w.private[a.tab].token != w.shared.token then
      GoesOn(w.(private := w.private[a.tab := EMPTY]), v, op, Finished)
    else GoesOn(w, v, op, Finished)
  }

  lemma FailureIsExact(w: World, op: OpId, a: Attempt, rotated: Option<Token>)
    ensures Fails(w, FailSwitch(w, op, a, rotated), op, a, rotated)
  {
    var own, shared := Own(w, a.tab).token, w.shared.token;
    assert shared.Some? ==> (IsNewer(shared, a, rotated) <==> !Known(shared.value, a, rotated));
    assert own.Some? ==> (IsNewer(own, a, rotated) <==> !Known(own.value, a, rotated));
  }

  /** A switch starts exactly if somebody is logged in, in another park, and the park is
      accessible to them; it remembers what it found and sets the marker. */
  ghost predicate Starts(w: World, v: World, op: OpId, tab: Tab, park: nat, accessible: bool) {
    var own := if tab in w.private then w.private[tab] else EMPTY;
    var user := if w.shared.user.Some? then w.shared.user else own.user;
    var sent := if w.shared.token.Some? then w.shared.token else own.token;
    if accessible && user.Some? && user.value.park != park then
      && v.marker == Some(op) && v.log == w.log + [Event(Op(op), Marked)]
      && v.shared == w.shared && v.private == w.private && v.locks == w.locks
      && v.ops == w.ops[op := Switching(Attempt(tab, park, user.value.mode, sent, w.shared.token))]
    else GoesOn(w, v, op, Finished)
  }

  lemma SwitchStarts(w: World, op: OpId, accessible: bool)
    requires Enabled(w, BeginSwitch(op, accessible))
    ensures Starts(w, Apply(w, BeginSwitch(op, accessible)), op, w.ops[op].tab, w.ops[op].park, accessible)
  {
  }

  /** A rotated token is pursued exactly under the switch's own marker; a rejection
      withdraws that marker and drops the tab's own session if it disagrees with the
      shared one or the shared one has been cleared; anything else is a failure. */
  ghost predicate Answers(w: World, v: World, op: OpId, a: Attempt, answer: Answer) {
    match answer
    case Rotated(token) =>
      if w.marker == Some(op) then GoesOn(w, v, op, SwitchFetching(a, token)) else Fails(w, v, op, a, Some(token))
    case Rejected => Rejects(w, v, op, a)
    case _ => Fails(w, v, op, a, None)
  }

  lemma AnswerDecides(w: World, op: OpId, answer: Answer)
    requires Enabled(w, Answered(op, answer))
    ensures Answers(w, Apply(w, Answered(op, answer)), op, w.ops[op].attempt, answer)
  {
    var a := w.ops[op].attempt;
    FailureIsExact(w, op, a, if answer.Rotated? then Some(answer.token) else None);
  }

  ghost predicate Rejects(w: World, v: World, op: OpId, a: Attempt) {
    var own := if a.tab in w.private then w.private[a.tab].token else None;
    && v.shared == w.shared && v.locks == w.locks && v.ops == w.ops[op := Finished]
    && (if w.marker == Some(op) then v.marker == None && v.log == w.log + [Event(Op(op), Unmarked)]
        else v.marker == w.marker && v.log == w.log)
    && (if own.Some? && (if w.shared.token.Some? then own != w.shared.token else a.originalShared == a.original) then
          v.private == w.private[a.tab := EMPTY]
        else v.private == w.private)
  }

  /** The fetched user is the one asked for, and nobody has taken the marker. */
  ghost predicate Fits(w: World, op: OpId, a: Attempt, user: Option<User>) {
    user.Some? && user.value.park == a.park && user.value.mode == a.mode && w.marker == Some(op)
  }

  /** A session from elsewhere: every marker goes first, and then the session is stored
      at once exactly if nobody of another scope is stored. */
  ghost predicate Saves(w: World, v: World, op: OpId, tab: Tab, token: Token, user: User, actor: Actor, purging: Task) {
    var u := w.(marker := None, log := w.log + [Event(actor, Unmarked)]);
    if OtherScopeStored(w, tab, user) then GoesOn(u, v, op, purging)
    else Stores(u, v, op, tab, token, user, Event(actor, Published(token)), Finished)
  }

  /** A switch publishes exactly if what was fetched fits and nobody of another scope is
      stored; with somebody of another scope it goes on to the purge, and if it does not
      fit it fails. A login that fetched its user saves the session, and logs out if it
      could not. */
  ghost predicate Fetches(w: World, v: World, op: OpId, task: Task, user: Option<User>) {
    match task
    case SwitchFetching(a, token) =>
      if !Fits(w, op, a, user) then Fails(w, v, op, a, Some(token))
      else if OtherScopeStored(w, a.tab, user.value) then GoesOn(w, v, op, SwitchPurging(a, token, user.value))
      else Stores(w, v, op, a.tab, token, user.value, Event(Op(op), Switched(token)), SwitchLeaving)
    case LoginFetching(tab, token) =>
      if user.None? then GoesOn(w, v, op, LoggingOut(tab))
      else Saves(w, v, op, tab, token, user.value, Op(op), LoginPurging(tab, token, user.value))
    case _ => false
  }

  lemma FetchDecides(w: World, op: OpId, user: Option<User>)
    requires Enabled(w, Fetched(op, user))
    ensures Fetches(w, Apply(w, Fetched(op, user)), op, w.ops[op], user)
  {
    if w.ops[op].SwitchFetching? {
      FailureIsExact(w, op, w.ops[op].attempt, Some(w.ops[op].rotated));
    }
  }

  /** After the purge a switch publishes exactly if the purge succeeded and nobody has
      taken the marker; any other session is stored exactly if the purge succeeded. */
  ghost predicate Purges(w: World, v: World, op: OpId, task: Task, ok: bool) {
    match task
    case SwitchPurging(a, token, user) =>
      if ok && w.marker == Some(op) then
        Stores(w, v, op, a.tab, token, user, Event(Op(op), Switched(token)), SwitchLeaving)
      else Fails(w, v, op, a, Some(token))
    case LoginPurging(tab, token, user) =>
      if ok then Stores(w, v, op, tab, token, user, Event(Op(op), Published(token)), Finished)
      else GoesOn(w, v, op, LoggingOut(tab))
    case DirectPurging(tab, token, user) =>
      if ok then Stores(w, v, op, tab, token, user, Event(Direct(op), Published(token)), Finished)
      else GoesOn(w, v, op, Finished)
    case _ => false
  }

  lemma PurgeDecides(w: World, op: OpId, ok: bool)
    requires Enabled(w, Purged(op, ok))
    ensures Purges(w, Apply(w, Purged(op, ok)), op, w.ops[op], ok)
  {
    if w.ops[op].SwitchPurging? {
      FailureIsExact(w, op, w.ops[op].attempt, Some(w.ops[op].rotated));
    }
  }

  lemma DirectSessionSaves(w: World, op: OpId, tab: Tab, token: Token, user: User)
    requires Enabled(w, SetSession(op, tab, token, user))
    ensures Saves(w, Apply(w, SetSession(op, tab, token, user)), op, tab, token, user, Direct(op), DirectPurging(tab, token, user))
  {
  }

  // ---------- an undisturbed switch publishes ----------

  /** How far an operation has come. */
  function Progress(t: Task): nat {
    match t
    case Switching(_) => 1
    case LoginFetching(_, _) => 1
    case SwitchFetching(_, _) => 2
    case LoginPurging(_, _, _) => 2
    case SwitchPurging(_, _, _) => 3
    case DirectPurging(_, _, _) => 3
    case SwitchLeaving => 4
    case LoggingOut(_) => 4
    case Cleaning => 5
    case Finished => 6
    case _ => 0
  }

  ghost predicate Advances(w: World, v: World, op: OpId) {
    op in w.ops ==> op in v.ops && (v.ops[op] == w.ops[op] || Progress(v.ops[op]) > Progress(w.ops[op]))
  }

  /** The marker does not change without a record. */
  ghost predicate MarkerRecorded(w: World, v: World) {
    w.log <= v.log && (v.log == w.log ==> v.marker == w.marker)
  }

  lemma AnsweredAdvances(w: World, a: Action, op: OpId)
    requires Enabled(w, a) && a.Answered?
    ensures Advances(w, Apply(w, a), op) && MarkerRecorded(w, Apply(w, a))
  {
    AnswerDecides(w, a.op, a.answer);
  }

  lemma FetchedAdvances(w: World, a: Action, op: OpId)
    requires Enabled(w, a) && a.Fetched?
    ensures Advances(w, Apply(w, a), op) && MarkerRecorded(w, Apply(w, a))
  {
    FetchDecides(w, a.op, a.found);
  }

  lemma PurgedAdvances(w: World, a: Action, op: OpId)
    requires Enabled(w, a) && a.Purged?
    ensures Advances(w, Apply(w, a), op) && MarkerRecorded(w, Apply(w, a))
  {
    PurgeDecides(w, a.op, a.ok);
  }

  lemma BeginAdvances(w: World, a: Action, op: OpId)
    requires Enabled(w, a) && (a.BeginSwitch? || a.BeginReset?)
    ensures Advances(w, Apply(w, a), op) && MarkerRecorded(w, Apply(w, a))
  {
  }

  lemma OtherAdvances(w: World, a: Action, op: OpId)
    requires Enabled(w, a) && !a.Answered? && !a.Fetched? && !a.Purged? && !a.BeginSwitch? && !a.BeginReset?
    ensures Advances(w, Apply(w, a), op) && MarkerRecorded(w, Apply(w, a))
  {
  }

  lemma StepAdvances(w: World, a: Action, op: OpId)
    requires Enabled(w, a)
    ensures Advances(w, Apply(w, a), op) && MarkerRecorded(w, Apply(w, a))
  {
    hide Advances, MarkerRecorded, Apply;
    match a
    case Answered(_, _) => AnsweredAdvances(w, a, op);
    case Fetched(_, _) => FetchedAdvances(w, a, op);
    case Purged(_, _) => PurgedAdvances(w, a, op);
    case BeginSwitch(_, _) => BeginAdvances(w, a, op);
    case BeginReset(_) => BeginAdvances(w, a, op);
    case _ => OtherAdvances(w, a, op);
  }

  /** Between two moments an operation only gets further, and while the record stays as
      it is, so does the marker. */
  lemma {:induction false} AdvancesBetween(run: seq<World>, actions: seq<Action>, k: nat, n: nat, op: OpId)
    requires Steps(run, actions) && k <= n <= |actions|
    ensures Advances(run[k], run[n], op) && MarkerRecorded(run[k], run[n])
    decreases n
  {
    if k < n {
      AdvancesBetween(run, actions, k, n - 1, op);
      assert StepAt(run, actions, n - 1);
      StepAdvances(run[n - 1], actions[n - 1], op);
    }
  }

  /** Step b begins a switch, step r brings its new token and step f the user, and until
      then nothing has touched the marker. */
  ghost predicate Undisturbed(run: seq<World>, actions: seq<Action>, op: OpId, b: nat, r: nat, f: nat, token: Token, user: User) {
    && Steps(run, actions) && b < r < f < |actions|
    && actions[b] == BeginSwitch(op, true) && actions[r] == Answered(op, Rotated(token))
    && actions[f] == Fetched(op, Some(user)) && run[f].log == run[b + 1].log
  }

  /** The switch was allowed to start, and the user is the one that was asked for. */
  ghost predicate AskedFor(w: World, op: OpId, user: User) {
    op in w.ops && w.ops[op].SwitchWaiting? &&
    var current := StoredUser(w, w.ops[op].tab);
    current.Some? && current.value.park != user.park && user.park == w.ops[op].park && user.mode == current.value.mode
  }

  lemma UndisturbedArrives(run: seq<World>, actions: seq<Action>, op: OpId, b: nat, r: nat, f: nat, token: Token, user: User)
    requires Undisturbed(run, actions, op, b, r, f, token, user) && AskedFor(run[b], op, user)
    ensures op in run[f].ops && run[f].ops[op].SwitchFetching? && run[f].ops[op].rotated == token
    ensures Fits(run[f], op, run[f].ops[op].attempt, Some(user)) && run[f].ops[op].attempt.tab == run[b].ops[op].tab
  {
    assert StepAt(run, actions, b) && StepAt(run, actions, r) && StepAt(run, actions, f);
    SwitchStarts(run[b], op, true);
    AdvancesBetween(run, actions, b + 1, r, op);
    AdvancesBetween(run, actions, r, r + 1, op);
    AdvancesBetween(run, actions, r + 1, f, op);
    assert run[r].log == run[b + 1].log == run[r + 1].log;
    AnswerDecides(run[r], op, Rotated(token));
  }

  /** A switch that is answered with a token and the user it asked for, and whose marker
      nobody touches, publishes that session at once if nobody of another data scope is
      stored. */
  lemma UndisturbedSwitchPublishes(run: seq<World>, actions: seq<Action>, op: OpId, b: nat, r: nat, f: nat, token: Token, user: User)
    requires Undisturbed(run, actions, op, b, r, f, token, user) && AskedFor(run[b], op, user)
    requires !OtherScopeStored(run[f], run[b].ops[op].tab, user)
    ensures Stores(run[f], run[f + 1], op, run[b].ops[op].tab, token, user, Event(Op(op), Switched(token)), SwitchLeaving)
  {
    UndisturbedArrives(run, actions, op, b, r, f, token, user);
    assert StepAt(run, actions, f);
    FetchDecides(run[f], op, Some(user));
  }

  /** Otherwise it does so as soon as that data has been purged. */
  lemma PurgedSwitchPublishes(run: seq<World>, actions: seq<Action>, op: OpId, b: nat, r: nat, f: nat, p: nat, token: Token, user: User)
    requires Undisturbed(run, actions, op, b, r, f, token, user) && AskedFor(run[b], op, user)
    requires OtherScopeStored(run[f], run[b].ops[op].tab, user)
    requires f < p < |actions| && actions[p] == Purged(op, true) && run[p].log == run[b + 1].log
    ensures Stores(run[p], run[p + 1], op, run[b].ops[op].tab, token, user, Event(Op(op), Switched(token)), SwitchLeaving)
  {
    UndisturbedArrives(run, actions, op, b, r, f, token, user);
    assert StepAt(run, actions, f) && StepAt(run, actions, p);
    FetchDecides(run[f], op, Some(user));
    AdvancesBetween(run, actions, f + 1, p, op);
    PurgeDecides(run[p], op, true);
  }

  // ---------- a 401 answer resets only the session it belongs to ----------

  /** The check lets through exactly the token the tab would send now. */
  lemma CurrentMeansSent(w: World, tab: Tab, request: Token)
    ensures IsCurrentToken(Own(w, tab).token, w.shared.token, request) <==> GetToken(w, tab) == Some(request)
  {
  }

  /** A reset wipes the storages exactly when, in that very step, the tab's token is
      the one the rejected request carried, or there is no token and it carried none;
      otherwise the shared storage and the marker stay as they are. */
  lemma ResetClearsOnlyCurrent(w: World, op: OpId)
    requires Enabled(w, BeginReset(op))
    ensures var v, tab, request := Apply(w, BeginReset(op)), w.ops[op].tab, w.ops[op].request;
      if GetToken(w, tab) == request then
        v.shared == EMPTY && Own(v, tab) == EMPTY && v.marker == None && v.log == w.log + [Event(Op(op), Wiped)]
      else
        && v.shared == w.shared && v.marker == w.marker && v.log == w.log
        && (Own(v, tab) == Own(w, tab) || Own(w, tab).token != w.shared.token)
  {
    if w.ops[op].request.Some? {
      CurrentMeansSent(w, w.ops[op].tab, w.ops[op].request.value);
    }
  }

  // ---------- with locks, operations take turns ----------

  function ActorOf(w: World, a: Action): Actor
    requires Enabled(w, a)
  {
    match a
    case SetSession(op, _, _, _) => Direct(op)
    case SetToken(tab, _, _) => Page(tab)
    case StoreProfile(tab, _, _) => Page(tab)
    case Purged(op, _) => if w.ops[op].DirectPurging? then Direct(op) else Op(op)
    case _ => Op(a.op)
  }

  /** What is new in the record was done by the actor. */
  ghost predicate AddedBy(w: World, v: World, actor: Actor) {
    w.log <= v.log && forall k | |w.log| <= k < |v.log| :: v.log[k].actor == actor
  }

  /** Only the task of one operation changed. */
  ghost predicate OnlyTask(w: World, v: World, op: OpId) {
    op in v.ops && v.ops == w.ops[op := v.ops[op]]
  }

  /** What a step does to the record and to the tasks. */
  ghost predicate Shaped(w: World, v: World, a: Action)
    requires Enabled(w, a)
  {
    && v.locks == w.locks && AddedBy(w, v, ActorOf(w, a))
    && (a.SetToken? || a.StoreProfile? ==> v.ops == w.ops)
    && (a.SetSession? ==> OnlyTask(w, v, a.op) && !Waits(v.ops[a.op]) && !Holds(v.ops[a.op]))
    && (a.Arrive? ==> OnlyTask(w, v, a.op) && v.log == w.log && !Holds(v.ops[a.op]))
    && (ActorOf(w, a).Op? && !a.Arrive? ==> OnlyTask(w, v, a.op) && !Waits(v.ops[a.op]))
    && (ActorOf(w, a).Direct? && !a.SetSession? ==> OnlyTask(w, v, a.op) && v.ops[a.op].Finished?)
  }

  lemma FetchedIsShaped(w: World, op: OpId, user: Option<User>)
    requires Enabled(w, Fetched(op, user))
    ensures Shaped(w, FetchedUser(w, op, user), Fetched(op, user))
  {
    match w.ops[op]
    case SwitchFetching(attempt, token) => FailureTouchesNothing(w, op, attempt, Some(token));
    case LoginFetching(_, _) =>
  }

  lemma PurgedIsShaped(w: World, op: OpId, ok: bool)
    requires Enabled(w, Purged(op, ok))
    ensures Shaped(w, AfterPurge(w, op, ok), Purged(op, ok))
  {
    match w.ops[op]
    case SwitchPurging(attempt, token, _) => FailureTouchesNothing(w, op, attempt, Some(token));
    case LoginPurging(_, _, _) =>
    case DirectPurging(_, _, _) =>
  }

  lemma AnsweredIsShaped(w: World, op: OpId, answer: Answer)
    requires Enabled(w, Answered(op, answer))
    ensures Shaped(w, Apply(w, Answered(op, answer)), Answered(op, answer))
  {
    var a := w.ops[op].attempt;
    FailureTouchesNothing(w, op, a, if answer.Rotated? then Some(answer.token) else None);
  }

  lemma BeginIsShaped(w: World, a: Action)
    requires Enabled(w, a) && (a.BeginSwitch? || a.BeginLogin? || a.BeginLogout? || a.BeginClear? || a.BeginReset?)
    ensures Shaped(w, Apply(w, a), a)
  {
    hide StartSwitch, Reset, Shaped;
    if a.BeginSwitch? {
      SwitchIsShaped(w, a);
    } else if a.BeginReset? {
      ResetIsShaped(w, a);
    } else {
      OthersBegin(w, a);
    }
  }

  lemma SwitchIsShaped(w: World, a: Action)
    requires Enabled(w, a) && a.BeginSwitch?
    ensures Shaped(w, Apply(w, a), a)
  {
  }

  lemma ResetIsShaped(w: World, a: Action)
    requires Enabled(w, a) && a.BeginReset?
    ensures Shaped(w, Apply(w, a), a)
  {
  }

  lemma OthersBegin(w: World, a: Action)
    requires Enabled(w, a) && (a.BeginLogin? || a.BeginLogout? || a.BeginClear?)
    ensures Shaped(w, Apply(w, a), a)
  {
  }

  lemma PageIsShaped(w: World, a: Action)
    requires Enabled(w, a) && (a.SetSession? || a.SetToken? || a.StoreProfile?)
    ensures Shaped(w, Apply(w, a), a)
  {
  }

  lemma StepIsShaped(w: World, a: Action)
    requires Enabled(w, a)
    ensures Shaped(w, Apply(w, a), a)
  {
    if a.BeginSwitch? || a.BeginLogin? || a.BeginLogout? || a.BeginClear? || a.BeginReset? {
      BeginIsShaped(w, a);
    } else if a.SetSession? || a.SetToken? || a.StoreProfile? {
      PageIsShaped(w, a);
    } else {
      OtherIsShaped(w, a);
    }
  }

  lemma OtherIsShaped(w: World, a: Action)
    requires Enabled(w, a) && !a.SetSession? && !a.SetToken? && !a.StoreProfile?
    requires !a.BeginSwitch? && !a.BeginLogin? && !a.BeginLogout? && !a.BeginClear? && !a.BeginReset?
    ensures Shaped(w, Apply(w, a), a)
  {
    match a
    case Fetched(op, user) => FetchedIsShaped(w, op, user);
    case Purged(op, ok) => PurgedIsShaped(w, op, ok);
    case Answered(op, answer) => AnsweredIsShaped(w, op, answer);
    case _ =>
  }

  /** Between two touches by one operation, no other operation under the lock has
      touched the marker. */
  ghost predicate TurnTaken(log: seq<Event>, i: nat, k: nat, j: nat)
    requires i < k < j < |log|
  {
    log[i].actor.Op? && log[i].actor == log[j].actor && log[k].actor.Op? ==> log[k].actor == log[i].actor
  }

  ghost predicate TakeTurns(log: seq<Event>) {
    forall i, k, j {:trigger TurnTaken(log, i, k, j)} | 0 <= i < k < j < |log| :: TurnTaken(log, i, k, j)
  }

  ghost predicate NeverActed(log: seq<Event>, op: OpId) {
    forall k | 0 <= k < |log| :: log[k].actor != Op(op)
  }

  /** Since its first touch, the operation is the only one to have touched the marker. */
  ghost predicate HasTheTurn(log: seq<Event>, op: OpId) {
    forall i, k | 0 <= i < k < |log| && log[i].actor == Op(op) && log[k].actor.Op? :: log[k].actor == Op(op)
  }

  ghost predicate Turns(w: World) {
    && TakeTurns(w.log)
    && (forall op {:trigger NeverActed(w.log, op)} | op !in w.ops || Waits(w.ops[op]) :: NeverActed(w.log, op))
    && (forall op {:trigger HasTheTurn(w.log, op)} | op in w.ops && Holds(w.ops[op]) :: HasTheTurn(w.log, op))
    && (forall op, other | op in w.ops && other in w.ops && Holds(w.ops[op]) && Holds(w.ops[other]) :: op == other)
  }

  /** Touches by an operation that has the turn, or by a page, keep the turns. */
  lemma TurnsKept(log: seq<Event>, longer: seq<Event>, actor: Actor)
    requires TakeTurns(log) && log <= longer
    requires forall k | |log| <= k < |longer| :: longer[k].actor == actor
    requires actor.Op? ==> HasTheTurn(log, actor.id)
    ensures TakeTurns(longer)
  {
    forall i, k, j | 0 <= i < k < j < |longer| ensures TurnTaken(longer, i, k, j) {
      if j < |log| {
        assert TurnTaken(log, i, k, j);
        assert longer[i] == log[i] && longer[k] == log[k] && longer[j] == log[j];
      } else if k < |log| {
        assert longer[i] == log[i] && longer[k] == log[k];
      }
    }
  }

  lemma StepKeepsTurns(w: World, a: Action)
    requires w.locks && Turns(w) && Enabled(w, a)
    ensures Turns(Apply(w, a))
  {
    var v, actor := Apply(w, a), ActorOf(w, a);
    StepIsShaped(w, a);
    assert v.log != w.log && actor.Op? ==> HasTheTurn(w.log, actor.id) by {
      if v.log != w.log && actor.Op? {
        assert NeverActed(w.log, actor.id) || HasTheTurn(w.log, actor.id);
      }
    }
    if v.log != w.log {
      TurnsKept(w.log, v.log, actor);
    }
    forall op | op !in v.ops || Waits(v.ops[op]) ensures NeverActed(v.log, op) {
      assert NeverActed(w.log, op);
    }
    forall op | op in v.ops && Holds(v.ops[op]) ensures HasTheTurn(v.log, op) {
      if op in w.ops && Holds(w.ops[op]) {
        assert HasTheTurn(w.log, op);
      } else {
        assert actor == Op(op) && NeverActed(w.log, op);
      }
    }
  }

  lemma {:induction false} RunKeepsTurns(run: seq<World>, actions: seq<Action>)
    requires Run(run, actions) && run[0].locks
    ensures run[|actions|].locks && Turns(run[|actions|])
  {
    if actions != [] {
      var n := |actions| - 1;
      RunPrefix(run, actions);
      RunKeepsTurns(run[..n + 1], actions[..n]);
      assert StepAt(run, actions, n);
      StepKeepsTurns(run[n], actions[n]);
      StepIsShaped(run[n], actions[n]);
    }
  }

  /** With locks, no other operation under the lock has touched the marker between a
      switch setting it and the same switch wiping the storages. */
  lemma LockedFailureSparesOperations(run: seq<World>, actions: seq<Action>, i: nat, k: nat, j: nat)
    requires Run(run, actions) && run[0].locks && i < k < j < |run[|actions|].log|
    requires var log := run[|actions|].log;
      log[i].actor.Op? && log[i].what.Marked? && log[j] == Event(log[i].actor, Wiped)
    ensures run[|actions|].log[k].actor.Op? ==> run[|actions|].log[k].actor == run[|actions|].log[i].actor
  {
    RunKeepsTurns(run, actions);
    assert TurnTaken(run[|actions|].log, i, k, j);
  }
  // ---------- a cancelled switch stays cancelled ----------

  /** The switch has begun and the marker is not, or no longer, its own. */
  ghost predicate Cancelled(w: World, op: OpId) {
    op in w.ops && !w.ops[op].SwitchWaiting? && w.marker != Some(op)
  }

  ghost predicate NotSwitchedBy(w: World, v: World, op: OpId) {
    w.log <= v.log && forall k | |w.log| <= k < |v.log| && v.log[k].what.Switched? :: v.log[k].actor != Op(op)
  }

  lemma FetchedKeepsCancelled(w: World, other: OpId, user: Option<User>, op: OpId)
    requires Cancelled(w, op) && Enabled(w, Fetched(other, user))
    ensures Cancelled(FetchedUser(w, other, user), op) && NotSwitchedBy(w, FetchedUser(w, other, user), op)
  {
    match w.ops[other]
    case SwitchFetching(attempt, token) => FailureTouchesNothing(w, other, attempt, Some(token));
    case LoginFetching(_, _) =>
  }

  lemma PurgedKeepsCancelled(w: World, other: OpId, ok: bool, op: OpId)
    requires Cancelled(w, op) && Enabled(w, Purged(other, ok))
    ensures Cancelled(AfterPurge(w, other, ok), op) && NotSwitchedBy(w, AfterPurge(w, other, ok), op)
  {
    match w.ops[other]
    case SwitchPurging(attempt, token, _) => FailureTouchesNothing(w, other, attempt, Some(token));
    case LoginPurging(_, _, _) =>
    case DirectPurging(_, _, _) =>
  }

  lemma AnsweredKeepsCancelled(w: World, other: OpId, answer: Answer, op: OpId)
    requires Cancelled(w, op) && Enabled(w, Answered(other, answer))
    ensures Cancelled(Apply(w, Answered(other, answer)), op) && NotSwitchedBy(w, Apply(w, Answered(other, answer)), op)
  {
    FailureTouchesNothing(w, other, w.ops[other].attempt, if answer.Rotated? then Some(answer.token) else None);
  }

  lemma StepKeepsCancelled(w: World, a: Action, op: OpId)
    requires Cancelled(w, op) && Enabled(w, a)
    ensures Cancelled(Apply(w, a), op) && NotSwitchedBy(w, Apply(w, a), op)
  {
    match a
    case Fetched(other, user) => FetchedKeepsCancelled(w, other, user, op);
    case Purged(other, ok) => PurgedKeepsCancelled(w, other, ok, op);
    case Answered(other, answer) => AnsweredKeepsCancelled(w, other, answer, op);
    case _ =>
  }

  /** Whatever happens later, a cancelled switch never publishes. */
  lemma {:induction false} CancelledForGood(run: seq<World>, actions: seq<Action>, op: OpId)
    requires Steps(run, actions) && Cancelled(run[0], op)
    ensures Cancelled(run[|actions|], op) && NotSwitchedBy(run[0], run[|actions|], op)
  {
    if actions != [] {
      var n := |actions| - 1;
      RunPrefix(run, actions);
      CancelledForGood(run[..n + 1], actions[..n], op);
      assert StepAt(run, actions, n);
      StepKeepsCancelled(run[n], actions[n], op);
      var before, after := run[n].log, run[|actions|].log;
      forall k | |run[0].log| <= k < |after| && after[k].what.Switched? ensures after[k].actor != Op(op) {
        assert k < |before| ==> before[k] == after[k];
      }
    }
  }

  /** In whatever way things go on from here, of the switches already under way only
      those named may still publish. */
  ghost predicate OnlyMayPublish(w: World, named: set<OpId>) {
    forall run: seq<World>, actions: seq<Action> :: PublishersAre(w, named, run, actions)
  }

  ghost predicate PublishersAre(w: World, named: set<OpId>, run: seq<World>, actions: seq<Action>) {
    Steps(run, actions) && run[0] == w ==>
      forall k | |w.log| <= k < |run[|actions|].log| && run[|actions|].log[k].what.Switched? ::
        MayPublish(w, named, run[|actions|].log[k].actor)
  }

  ghost predicate MayPublish(w: World, named: set<OpId>, actor: Actor) {
    actor.Op? ==> actor.id in named || actor.id !in w.ops || w.ops[actor.id].SwitchWaiting?
  }

  lemma OnlyMarkedMayPublish(w: World, named: set<OpId>)
    requires w.marker.Some? ==> w.marker.value in named
    ensures OnlyMayPublish(w, named)
  {
    forall run: seq<World>, actions: seq<Action> ensures PublishersAre(w, named, run, actions) {
      if Steps(run, actions) && run[0] == w {
        forall k | |w.log| <= k < |run[|actions|].log| && run[|actions|].log[k].what.Switched?
          ensures MayPublish(w, named, run[|actions|].log[k].actor)
        {
          var actor := run[|actions|].log[k].actor;
          if !MayPublish(w, named, actor) {
            CancelledForGood(run, actions, actor.id);
          }
        }
      }
    }
  }

  // ---------- what a switch publishes, and what it leaves ----------

  /** What waits for the purge has been checked against what was asked for. */
  ghost predicate Checked(w: World) {
    forall op | op in w.ops && w.ops[op].SwitchPurging? ::
      w.ops[op].user.park == w.ops[op].attempt.park && w.ops[op].user.mode == w.ops[op].attempt.mode
  }

  /** With locks, a switch that has published leaves no marker for anybody to lose. */
  ghost predicate LeavesNothing(w: World) {
    w.locks ==> forall op | op in w.ops && w.ops[op].SwitchLeaving? :: w.marker == None
  }

  lemma FetchedKeepsChecked(w: World, op: OpId, user: Option<User>)
    requires Checked(w) && LeavesNothing(w) && Enabled(w, Fetched(op, user))
    ensures Checked(FetchedUser(w, op, user)) && LeavesNothing(FetchedUser(w, op, user))
  {
    if w.ops[op].SwitchFetching? {
      FailureTouchesNothing(w, op, w.ops[op].attempt, Some(w.ops[op].rotated));
    }
  }

  lemma PurgedKeepsChecked(w: World, op: OpId, ok: bool)
    requires Checked(w) && LeavesNothing(w) && Enabled(w, Purged(op, ok))
    ensures Checked(AfterPurge(w, op, ok)) && LeavesNothing(AfterPurge(w, op, ok))
  {
    if w.ops[op].SwitchPurging? {
      FailureTouchesNothing(w, op, w.ops[op].attempt, Some(w.ops[op].rotated));
    }
  }

  lemma AnsweredKeepsChecked(w: World, op: OpId, answer: Answer)
    requires Checked(w) && LeavesNothing(w) && Enabled(w, Answered(op, answer))
    ensures Checked(SwitchAnswered(w, op, w.ops[op].attempt, answer)) && LeavesNothing(SwitchAnswered(w, op, w.ops[op].attempt, answer))
  {
    FailureTouchesNothing(w, op, w.ops[op].attempt, if answer.Rotated? then Some(answer.token) else None);
  }

  lemma StepKeepsChecked(w: World, a: Action)
    requires Checked(w) && LeavesNothing(w) && Enabled(w, a)
    ensures Checked(Apply(w, a)) && LeavesNothing(Apply(w, a))
  {
    hide FetchedUser, AfterPurge, SwitchAnswered;
    match a
    case Fetched(op, user) => FetchedKeepsChecked(w, op, user);
    case Purged(op, ok) => PurgedKeepsChecked(w, op, ok);
    case Answered(op, answer) => AnsweredKeepsChecked(w, op, answer);
    case _ =>
  }

  lemma {:induction false} RunKeepsChecked(run: seq<World>, actions: seq<Action>)
    requires Run(run, actions)
    ensures Checked(run[|actions|]) && LeavesNothing(run[|actions|])
  {
    if actions != [] {
      var n := |actions| - 1;
      RunPrefix(run, actions);
      RunKeepsChecked(run[..n + 1], actions[..n]);
      assert StepAt(run, actions, n);
      StepKeepsChecked(run[n], actions[n]);
    }
  }

  /** A definite rejection withdraws no other switch's marker and stores nothing. The
      tab sends what it sent before, unless the shared session has been cleared since
      the switch began: then it sends nothing. */
  lemma RejectionSparesOthers(w: World, op: OpId, a: Attempt)
    ensures var v := RejectSwitch(w, op, a);
      && v.shared == w.shared && (v.marker == w.marker || w.marker == Some(op))
      && (GetToken(v, a.tab) == GetToken(w, a.tab)
          || (v.shared.token.None? && GetToken(v, a.tab) == None && a.originalShared == a.original))
  {
  }

  // ---------- what a failed switch wipes ----------

  /** The token that a step stores in the shared storage. */
  function StoredBy(w: World, a: Action): Option<Token>
    requires Enabled(w, a)
  {
    var v := Apply(w, a);
    if a.SetToken? then Some(a.token)
    else if |v.log| <= |w.log| then None
    else match v.log[|v.log| - 1].what
      case Switched(token) => Some(token)
      case Published(token) => Some(token)
      case _ => None
  }

  predicate Wipes(w: World, a: Action)
    requires Enabled(w, a)
  {
    var v := Apply(w, a);
    |v.log| > |w.log| && v.log[|v.log| - 1].what.Wiped?
  }

  /** What the step makes of the shared token if it stores, wipes or leaves it. */
  ghost predicate TokenFollows(w: World, a: Action)
    requires Enabled(w, a)
  {
    Apply(w, a).shared.token ==
      if StoredBy(w, a).Some? then StoredBy(w, a) else if Wipes(w, a) then None else w.shared.token
  }

  lemma FetchedFollows(w: World, op: OpId, user: Option<User>)
    requires Enabled(w, Fetched(op, user))
    ensures TokenFollows(w, Fetched(op, user))
  {
    if w.ops[op].SwitchFetching? {
      FailureTouchesNothing(w, op, w.ops[op].attempt, Some(w.ops[op].rotated));
    }
  }

  lemma PurgedFollows(w: World, op: OpId, ok: bool)
    requires Enabled(w, Purged(op, ok))
    ensures TokenFollows(w, Purged(op, ok))
  {
    if w.ops[op].SwitchPurging? {
      FailureTouchesNothing(w, op, w.ops[op].attempt, Some(w.ops[op].rotated));
    }
  }

  lemma AnsweredFollows(w: World, op: OpId, answer: Answer)
    requires Enabled(w, Answered(op, answer))
    ensures TokenFollows(w, Answered(op, answer))
  {
    FailureTouchesNothing(w, op, w.ops[op].attempt, if answer.Rotated? then Some(answer.token) else None);
  }

  lemma OtherFollows(w: World, a: Action)
    requires Enabled(w, a) && !a.Fetched? && !a.Purged? && !a.Answered?
    ensures TokenFollows(w, a)
  {
  }

  /** Nothing but storing and wiping changes the shared token. */
  lemma SharedTokenChanges(w: World, a: Action)
    requires Enabled(w, a)
    ensures TokenFollows(w, a)
  {
    hide TokenFollows;
    match a
    case Fetched(op, user) => FetchedFollows(w, op, user);
    case Purged(op, ok) => PurgedFollows(w, op, ok);
    case Answered(op, answer) => AnsweredFollows(w, op, answer);
    case _ => OtherFollows(w, a);
  }

  predicate IsSwitching(t: Task) {
    t.Switching? || t.SwitchFetching? || t.SwitchPurging?
  }

  /** The step in which a failing switch decides to log out. */
  predicate GivesUp(w: World, a: Action, op: OpId)
    requires Enabled(w, a)
  {
    op in w.ops && IsSwitching(w.ops[op]) && op in Apply(w, a).ops && Apply(w, a).ops[op].LoggingOut?
  }

  /** The token the switch had obtained when it failed. */
  function Obtained(w: World, a: Action, op: OpId): Option<Token>
    requires op in w.ops && IsSwitching(w.ops[op])
  {
    match w.ops[op]
    case Switching(_) => if a.Answered? && a.answer.Rotated? then Some(a.answer.token) else None
    case SwitchFetching(_, rotated) => Some(rotated)
    case SwitchPurging(_, rotated, _) => Some(rotated)
  }

  /** A stored token that is neither the one before the switch nor the one it obtained. */
  predicate NewerThan(w: World, a: Action, op: OpId, token: Option<Token>)
    requires op in w.ops && IsSwitching(w.ops[op])
  {
    IsNewer(token, w.ops[op].attempt, Obtained(w, a, op))
  }

  /** It decides so only while nothing newer is stored. */
  lemma GivesUpWithoutNewer(w: World, a: Action, op: OpId)
    requires Enabled(w, a) && GivesUp(w, a, op)
    ensures !NewerThan(w, a, op, Apply(w, a).shared.token)
  {
    StepIsShaped(w, a);
    match a
    case Fetched(_, _) => FailureTouchesNothing(w, op, w.ops[op].attempt, Obtained(w, a, op));
    case Purged(_, _) => FailureTouchesNothing(w, op, w.ops[op].attempt, Obtained(w, a, op));
    case Answered(_, _) => FailureTouchesNothing(w, op, w.ops[op].attempt, Obtained(w, a, op));
    case _ =>
  }

  ghost predicate GaveUp(run: seq<World>, actions: seq<Action>, d: nat, op: OpId)
    requires Steps(run, actions)
  {
    d < |actions| && (assert StepAt(run, actions, d); GivesUp(run[d], actions[d], op))
  }

  ghost predicate StoresAt(run: seq<World>, actions: seq<Action>, k: nat, token: Option<Token>)
    requires Steps(run, actions) && k < |actions|
  {
    assert StepAt(run, actions, k);
    token.Some? && StoredBy(run[k], actions[k]) == token
  }

  ghost predicate LeavesToken(run: seq<World>, actions: seq<Action>, k: nat)
    requires Steps(run, actions) && k < |actions|
  {
    assert StepAt(run, actions, k);
    StoredBy(run[k], actions[k]).None? && !Wipes(run[k], actions[k])
  }

  /** The k-th step stores the token that is there after n steps. */
  ghost predicate LastStored(run: seq<World>, actions: seq<Action>, k: nat, n: nat)
    requires Steps(run, actions) && n <= |actions|
  {
    && k < n && StoresAt(run, actions, k, run[k + 1].shared.token)
    && forall m {:trigger LeavesToken(run, actions, m)} | k < m < n :: LeavesToken(run, actions, m)
  }

  /** Something newer is there after n steps exactly if, of everything stored and wiped
      since step s, when nothing newer was there, the last was the storing of it. */
  lemma {:induction false} LastStoreDecides(run: seq<World>, actions: seq<Action>, s: nat, n: nat, newer: Option<Token> -> bool)
    requires Steps(run, actions) && s <= n <= |actions| && !newer(None) && !newer(run[s].shared.token)
    ensures newer(run[n].shared.token) <==>
      exists k {:trigger LastStored(run, actions, k, n)} | s <= k < n :: LastStored(run, actions, k, n) && newer(run[k + 1].shared.token)
    decreases n
  {
    if s < n {
      var m := n - 1;
      LastStoreDecides(run, actions, s, m, newer);
      assert StepAt(run, actions, m);
      SharedTokenChanges(run[m], actions[m]);
      if LeavesToken(run, actions, m) {
        forall k | s <= k < m ensures LastStored(run, actions, k, n) <==> LastStored(run, actions, k, m) {
        }
      } else if StoredBy(run[m], actions[m]).Some? {
        assert LastStored(run, actions, m, n);
      }
    }
  }

  /** A newer token was the last thing stored or wiped since the decision. */
  ghost predicate NewerStoredSince(run: seq<World>, actions: seq<Action>, d: nat, op: OpId)
    requires Steps(run, actions) && GaveUp(run, actions, d, op)
  {
    exists k {:trigger LastStored(run, actions, k, |actions|)} | d < k < |actions| ::
      LastStored(run, actions, k, |actions|) && NewerThan(run[d], actions[d], op, run[k + 1].shared.token)
  }

  /** The logout of a failed switch destroys a token that is neither the original nor
      the obtained one if and only if, after the step in which the switch decided to
      log out, such a token was stored and nothing was stored or wiped since. */
  lemma FailedSwitchDestroysExactly(run: seq<World>, actions: seq<Action>, d: nat, op: OpId)
    requires Steps(run, actions) && GaveUp(run, actions, d, op) && Enabled(run[|actions|], LogoutAnswered(op))
    ensures NewerThan(run[d], actions[d], op, run[|actions|].shared.token) <==> NewerStoredSince(run, actions, d, op)
    ensures Apply(run[|actions|], LogoutAnswered(op)).shared == EMPTY
  {
    assert StepAt(run, actions, d);
    GivesUpWithoutNewer(run[d], actions[d], op);
    var attempt, rotated := run[d].ops[op].attempt, Obtained(run[d], actions[d], op);
    LastStoreDecides(run, actions, d + 1, |actions|, token => IsNewer(token, attempt, rotated));
  }

  predicate IsClosing(t: Task) {
    t.Cleaning? || t.Finished?
  }

  lemma LoggingOutEnds(w: World, a: Action, op: OpId)
    requires Enabled(w, a) && op in w.ops && (w.ops[op].LoggingOut? || IsClosing(w.ops[op]))
    ensures var v := Apply(w, a);
      op in v.ops && (IsClosing(v.ops[op]) || (v.ops[op].LoggingOut? && w.ops[op].LoggingOut?))
  {
    StepIsShaped(w, a);
  }

  lemma {:induction false} LoggingOutBetween(run: seq<World>, actions: seq<Action>, k: nat, n: nat, op: OpId)
    requires Steps(run, actions) && k <= n <= |actions|
    requires op in run[k].ops && (run[k].ops[op].LoggingOut? || IsClosing(run[k].ops[op]))
    ensures op in run[n].ops && (run[n].ops[op].LoggingOut? || IsClosing(run[n].ops[op]))
    ensures run[n].ops[op].LoggingOut? ==> run[k].ops[op].LoggingOut?
    decreases n
  {
    if k < n {
      LoggingOutBetween(run, actions, k, n - 1, op);
      assert StepAt(run, actions, n - 1);
      LoggingOutEnds(run[n - 1], actions[n - 1], op);
    }
  }

  lemma {:induction false} RunsKeepTurns(run: seq<World>, actions: seq<Action>, k: nat)
    requires Run(run, actions) && run[0].locks && k <= |actions|
    ensures run[k].locks && Turns(run[k])
    decreases |actions|
  {
    if k == |actions| {
      RunKeepsTurns(run, actions);
    } else {
      RunPrefix(run, actions);
      RunsKeepTurns(run[..|actions|], actions[..|actions| - 1], k);
    }
  }

  /** With locks, what the logout destroys was stored by a page that took none. */
  lemma LockedFailureDestroysOnlyUnlocked(run: seq<World>, actions: seq<Action>, d: nat, k: nat, op: OpId)
    requires Run(run, actions) && run[0].locks
    requires GaveUp(run, actions, d, op) && Enabled(run[|actions|], LogoutAnswered(op))
    requires d < k < |actions| && StoresAt(run, actions, k, run[k + 1].shared.token)
    ensures Enabled(run[k], actions[k]) && !ActorOf(run[k], actions[k]).Op?
  {
    assert StepAt(run, actions, d) && StepAt(run, actions, k);
    LoggingOutBetween(run, actions, d + 1, k, op);
    LoggingOutBetween(run, actions, k, |actions|, op);
    RunsKeepTurns(run, actions, k);
    if ActorOf(run[k], actions[k]).Op? {
      StoringHolds(run[k], actions[k]);
    }
  }

  /** An operation that stores a token is a login or a switch holding the lock. */
  lemma StoringHolds(w: World, a: Action)
    requires Enabled(w, a) && StoredBy(w, a).Some? && ActorOf(w, a).Op?
    ensures var op := ActorOf(w, a).id;
      op in w.ops && Holds(w.ops[op]) && !w.ops[op].LoggingOut?
  {
    match a
    case Answered(op, answer) =>
      FailureTouchesNothing(w, op, w.ops[op].attempt, if answer.Rotated? then Some(answer.token) else None);
    case _ =>
  }

  /** Without locks: a switch whose answer was lost decides to log out, a login in
      another tab completes meanwhile, and the logout destroys that session. */
  lemma UnlockedFailureMayWipeNewerLogin() returns (run: seq<World>, actions: seq<Action>)
    ensures Run(run, actions) && !run[0].locks
    ensures |actions| == 6 && GaveUp(run, actions, 2, 1) && Enabled(run[6], LogoutAnswered(1))
    ensures NewerThan(run[2], actions[2], 1, run[6].shared.token)
    ensures |run[6].log| == 4 && run[6].log[3] == Event(Op(2), Published(9)) && run[6].shared.token == Some(9)
  {
    var before, after := User(1, 0, 0), User(2, 0, 0);
    run, actions := [World(false, Store(Some(7), Some(before)), None, map[], map[], [])], [];
    run, actions := Extend(run, actions, Arrive(1, SwitchWaiting(0, 2)));
    run, actions := Extend(run, actions, BeginSwitch(1, true));
    run, actions := Extend(run, actions, Answered(1, Lost));
    run, actions := Extend(run, actions, Arrive(2, LoginWaiting(1, 9)));
    run, actions := Extend(run, actions, BeginLogin(2));
    run, actions := Extend(run, actions, Fetched(2, Some(after)));
  }

  /** With locks too, when a page stores a session without taking the lock. */
  lemma LockedFailureMayWipeDirectSession() returns (run: seq<World>, actions: seq<Action>)
    ensures Run(run, actions) && run[0].locks
    ensures |actions| == 4 && GaveUp(run, actions, 2, 1) && Enabled(run[4], LogoutAnswered(1))
    ensures NewerThan(run[2], actions[2], 1, run[4].shared.token)
    ensures |run[4].log| == 3 && run[4].log[2] == Event(Direct(2), Published(9)) && run[4].shared.token == Some(9)
  {
    var before, after := User(1, 0, 0), User(2, 0, 0);
    run, actions := [World(true, Store(Some(7), Some(before)), None, map[], map[], [])], [];
    run, actions := Extend(run, actions, Arrive(1, SwitchWaiting(0, 2)));
    run, actions := Extend(run, actions, BeginSwitch(1, true));
    run, actions := Extend(run, actions, Answered(1, Lost));
    run, actions := Extend(run, actions, SetSession(2, 1, 9, after));
  }

  lemma RunGrows(run: seq<World>, actions: seq<Action>, a: Action)
    requires Run(run, actions) && Enabled(run[|actions|], a)
    ensures Run(run + [Apply(run[|actions|], a)], actions + [a])
  {
    var longer, more := run + [Apply(run[|actions|], a)], actions + [a];
    forall k | 0 <= k < |more| ensures StepAt(longer, more, k) {
      assert k < |actions| ==> StepAt(run, actions, k);
    }
  }

  lemma Extend(run: seq<World>, actions: seq<Action>, a: Action) returns (longer: seq<World>, more: seq<Action>)
    requires Run(run, actions) && Enabled(run[|actions|], a)
    ensures Run(longer, more) && run <= longer && actions <= more && |more| == |actions| + 1
    ensures more[|actions|] == a && longer[|more|] == Apply(run[|actions|], a)
  {
    RunGrows(run, actions, a);
    longer, more := run + [Apply(run[|actions|], a)], actions + [a];
  }

  // ---------- the browser as the program changes it ----------

  class Browser {
    const locks: bool
    var shared: Store
    var marker: Option<OpId>
    var private: map<Tab, Store>
    var ops: map<OpId, Task>
    ghost var log: seq<Event>
    ghost var run: seq<World>         // every state so far
    ghost var actions: seq<Action>    // what led from each to the next

    /** What has happened so far is a run. */
    ghost predicate Valid()
      reads this
    {
      Run(run, actions) && run[|actions|] == View()
    }

    /** One action has been taken. */
    twostate predicate Took(a: Action)
      reads this
    {
      Valid() && old(Valid()) && actions == old(actions) + [a] && run == old(run) + [View()]
    }

    /** Neither the storages nor the marker have been touched. */
    twostate predicate Untouched()
      reads this
    {
      shared == old(shared) && marker == old(marker) && log == old(log)
    }

    /** Finds the storages and the marker as earlier pages left them. */
    constructor (locks: bool, shared: Store, private: map<Tab, Store>, marker: Option<OpId>)
      ensures Valid() && actions == []
      ensures this.locks == locks && this.shared == shared && this.private == private && this.marker == marker
    {
      this.locks, this.shared, this.private, this.marker := locks, shared, private, marker;
      ops, log := map[], [];
      run, actions := [World(locks, shared, marker, private, map[], [])], [];
    }

    ghost method Note(a: Action)
      requires Run(run, actions) && Enabled(run[|actions|], a) && View() == Apply(run[|actions|], a)
      modifies this`run, this`actions
      ensures Valid() && actions == old(actions) + [a] && run == old(run) + [View()]
    {
      RunGrows(run, actions, a);
      run, actions := run + [View()], actions + [a];
    }

    ghost function View(): World
      reads this
    {
      World(locks, shared, marker, private, ops, log)
    }

    function OwnStore(tab: Tab): (s: Store)
      reads this
      ensures s == Own(View(), tab)
    {
      if tab in private then private[tab] else EMPTY
    }

    function Token(tab: Tab): (t: Option<Token>)
      reads this
      ensures t == GetToken(View(), tab)
    {
      if shared.token.Some? then shared.token else OwnStore(tab).token
    }

    function User(tab: Tab): (u: Option<User>)
      reads this
      ensures u == StoredUser(View(), tab)
    {
      if shared.user.Some? then shared.user else OwnStore(tab).user
    }

    method RemoveMarker(ghost actor: Actor)
      modifies this`marker, this`log
      ensures View() == Unmark(old(View()), actor)
    {
      marker := None;
      log := log + [Event(actor, Unmarked)];
    }

    method ClearOwn(tab: Tab)
      modifies this`private
      ensures View() == ClearPrivate(old(View()), tab)
    {
      private := private[tab := EMPTY];
    }

    method ClearStorages(tab: Tab, ghost actor: Actor)
      modifies this`shared, this`marker, this`private, this`log
      ensures View() == Wipe(old(View()), tab, actor)
    {
      ClearOwn(tab);
      shared := EMPTY;
      marker := None;
      log := log + [Event(actor, Wiped)];
    }

    method WriteSession(tab: Tab, token: Token, user: User, ghost event: Event)
      modifies this`shared, this`marker, this`private, this`log
      ensures View() == Publish(old(View()), tab, token, user, event)
    {
      private := private[tab := Store(Some(token), Some(user))];
      shared := Store(Some(token), Some(user));
      marker := None;
      log := log + [event];
    }

    method PurgeNeeded(tab: Tab, user: User) returns (needed: bool)
      ensures needed == ChangesScope(View(), tab, user)
    {
      var previous := User(tab);
      return previous.Some? && previous.value.scope != user.scope;
    }

    /** The first step of a switch: read the session and set the marker. Every switch
        under way before it is cancelled; with locks there is none. */
    method BeginSwitch(op: OpId, accessible: bool)
      requires Valid() && Enabled(View(), Action.BeginSwitch(op, accessible))
      modifies this
      ensures Took(Action.BeginSwitch(op, accessible)) && op in ops
      ensures Starts(old(View()), View(), op, old(ops[op]).tab, old(ops[op]).park, accessible)
      ensures shared == old(shared) && private == old(private)
      ensures ops[op].Finished? ==> Untouched()
      ensures !ops[op].Finished? ==>
        && OnlyMayPublish(View(), {op})
        && (locks ==> forall other | other in ops && Holds(ops[other]) :: other == op)
    {
      var tab, park := ops[op].tab, ops[op].park;
      var current := User(tab);
      if current.None? || current.value.park == park || !accessible {
        ops := ops[op := Finished];
      } else {
        var attempt := Attempt(tab, park, current.value.mode, Token(tab), shared.token);
        marker := Some(op);
        log := log + [Event(Op(op), Marked)];
        ops := ops[op := Switching(attempt)];
        OnlyMarkedMayPublish(View(), {op});
      }
      Note(Action.BeginSwitch(op, accessible));
    }

    method Reject(op: OpId, a: Attempt)
      modifies this`marker, this`private, this`ops, this`log
      ensures View() == RejectSwitch(old(View()), op, a)
    {
      if marker == Some(op) {
        RemoveMarker(Op(op));
      }
      ops := ops[op := Finished];
      var own := OwnStore(a.tab).token;
      var sharedCleared := shared.token.None? && a.originalShared == a.original;
      if own.Some? && (sharedCleared || (shared.token.Some? && own != shared.token)) {
        ClearOwn(a.tab);
      }
    }

    method Fail(op: OpId, a: Attempt, rotated: Option<Token>)
      modifies this`private, this`ops
      ensures View() == FailSwitch(old(View()), op, a, rotated)
    {
      var latest, own := Token(a.tab), OwnStore(a.tab).token;
      var newer := (latest.Some? && latest != a.original && latest != rotated)
        || (shared.token.Some? && shared.token != a.original && shared.token != rotated);
      if !newer {
        ops := ops[op := LoggingOut(a.tab)];
      } else {
        if own.Some? && own != shared.token {
          ClearOwn(a.tab);
        }
        ops := ops[op := Finished];
      }
    }

    /** The server's answer. Nothing is stored yet, and the switch goes on only if
        nothing at all has touched the marker since it set it. A definite rejection
        withdraws no other marker and leaves the tab its token, unless the shared
        session is gone. */
    method SwitchAnswer(op: OpId, answer: Answer)
      requires Valid() && Enabled(View(), Answered(op, answer))
      modifies this
      ensures Took(Answered(op, answer)) && op in ops
      ensures Answers(old(View()), View(), op, old(ops[op]).attempt, answer)
      ensures shared == old(shared) && (marker == old(marker) || (answer.Rejected? && old(marker) == Some(op)))
      ensures ops[op].SwitchFetching? ==> log != [] && log[|log| - 1] == Event(Op(op), Marked)
      ensures answer.Rejected? ==> ops[op].Finished?
      ensures answer.Rejected? ==> var tab := old(ops[op]).attempt.tab;
        Token(tab) == old(Token(ops[op].attempt.tab)) || (shared.token.None? && Token(tab).None?)
    {
      var a := ops[op].attempt;
      RunIsHonest(run, actions);
      AnswerDecides(View(), op, answer);
      RejectionSparesOthers(View(), op, a);
      if answer.Rejected? {
        Reject(op, a);
      } else if !answer.Rotated? {
        Fail(op, a, None);
      } else if marker != Some(op) {
        Fail(op, a, Some(answer.token));
      } else {
        MarkerIsLastTouch(View(), run[0].marker, op);
        ops := ops[op := SwitchFetching(a, answer.token)];
      }
      Note(Answered(op, answer));
    }

    method StoreSwitched(op: OpId, a: Attempt, token: Token, user: User)
      modifies this`shared, this`marker, this`private, this`ops, this`log
      ensures View() == PublishSwitch(old(View()), op, a, token, user)
    {
      if marker != Some(op) {
        Fail(op, a, Some(token));
        return;
      }
      WriteSession(a.tab, token, user, Event(Op(op), Switched(token)));
      ops := ops[op := SwitchLeaving];
    }

    method Save(op: OpId, ghost actor: Actor, tab: Tab, token: Token, user: User, purging: Task)
      modifies this`shared, this`marker, this`private, this`ops, this`log
      ensures View() == SaveSession(old(View()), op, actor, tab, token, user, purging)
    {
      RemoveMarker(actor);
      var needed := PurgeNeeded(tab, user);
      if needed {
        ops := ops[op := purging];
        return;
      }
      WriteSession(tab, token, user, Event(actor, Published(token)));
      ops := ops[op := Finished];
    }

    /** A switch publishes only what it asked for, and only if nothing at all has
        touched the marker since it set it. */
    twostate predicate PublishedFairly(op: OpId, attempt: Attempt, rotated: Token)
      reads this
    {
      shared != old(shared) ==>
        && old(log) != [] && old(log)[|old(log)| - 1] == Event(Op(op), Marked)
        && shared.token == Some(rotated) && shared.user.Some?
        && shared.user.value.park == attempt.park && shared.user.value.mode == attempt.mode
        && OnlyMayPublish(View(), {})
    }

    /** The user of a new token has been fetched, or not. A switch stores the session
        exactly if it is the one it asked for, under a marker that nobody has touched,
        with nobody of another scope stored. A login that goes on cancels every switch
        under way. */
    method UserFetched(op: OpId, user: Option<User>)
      requires Valid() && Enabled(View(), Fetched(op, user))
      modifies this
      ensures Took(Fetched(op, user)) && op in ops
      ensures Fetches(old(View()), View(), op, old(ops[op]), user)
      ensures old(ops[op].SwitchFetching?) ==> PublishedFairly(op, old(ops[op]).attempt, old(ops[op]).rotated)
      ensures old(ops[op].LoginFetching?) && !ops[op].LoggingOut? ==> OnlyMayPublish(View(), {})
    {
      RunIsHonest(run, actions);
      FetchDecides(View(), op, user);
      if marker == Some(op) {
        MarkerIsLastTouch(View(), run[0].marker, op);
      }
      match ops[op] {
        case SwitchFetching(a, token) => ContinueSwitch(op, a, token, user);
        case LoginFetching(tab, token) =>
          if user.None? {
            ops := ops[op := LoggingOut(tab)];
          } else {
            Save(op, Op(op), tab, token, user.value, LoginPurging(tab, token, user.value));
          }
      }
      if marker.None? {
        OnlyMarkedMayPublish(View(), {});
      }
      Note(Fetched(op, user));
    }

    method ContinueSwitch(op: OpId, a: Attempt, token: Token, user: Option<User>)
      modifies this`shared, this`marker, this`private, this`ops, this`log
      ensures View() == SwitchFetched(old(View()), op, a, token, user)
    {
      if user.None? || user.value.mode != a.mode || user.value.park != a.park || marker != Some(op) {
        Fail(op, a, Some(token));
        return;
      }
      var needed := PurgeNeeded(a.tab, user.value);
      if needed {
        ops := ops[op := SwitchPurging(a, token, user.value)];
      } else {
        StoreSwitched(op, a, token, user.value);
      }
    }

    /** The offline data of the previous scope is gone, or could not be removed. A switch
        publishes exactly if it is gone and the marker is still its own; what it publishes
        then satisfies the same conditions. */
    method PurgeEnds(op: OpId, ok: bool)
      requires Valid() && Enabled(View(), Purged(op, ok))
      modifies this
      ensures Took(Purged(op, ok))
      ensures Purges(old(View()), View(), op, old(ops[op]), ok)
      ensures old(ops[op].SwitchPurging?) ==> PublishedFairly(op, old(ops[op]).attempt, old(ops[op]).rotated)
      ensures !old(ops[op].SwitchPurging?) && ok ==> OnlyMayPublish(View(), {})
      ensures !ok ==> Untouched()
    {
      RunIsHonest(run, actions);
      RunKeepsChecked(run, actions);
      PurgeDecides(View(), op, ok);
      if marker == Some(op) {
        MarkerIsLastTouch(View(), run[0].marker, op);
      }
      match ops[op] {
        case SwitchPurging(a, token, user) =>
          if ok {
            StoreSwitched(op, a, token, user);
          } else {
            Fail(op, a, Some(token));
          }
        case LoginPurging(tab, token, user) =>
          if ok {
            WriteSession(tab, token, user, Event(Op(op), Published(token)));
            ops := ops[op := Finished];
          } else {
            ops := ops[op := LoggingOut(tab)];
          }
        case DirectPurging(tab, token, user) =>
          if ok {
            WriteSession(tab, token, user, Event(Direct(op), Published(token)));
          }
          ops := ops[op := Finished];
      }
      if marker.None? {
        OnlyMarkedMayPublish(View(), {});
      }
      Note(Purged(op, ok));
    }

    /** The last removal of the marker. With locks there is nothing left to remove. */
    method LeaveSwitch(op: OpId)
      requires Valid() && Enabled(View(), Leave(op))
      modifies this
      ensures Took(Leave(op)) && ops == old(ops)[op := Finished]
      ensures shared == old(shared) && private == old(private)
      ensures locks ==> marker == old(marker) == None
      ensures OnlyMayPublish(View(), {})
    {
      RunKeepsChecked(run, actions);
      RemoveMarker(Op(op));
      ops := ops[op := Finished];
      OnlyMarkedMayPublish(View(), {});
      Note(Leave(op));
    }

    /** A login begins: every switch under way is cancelled. */
    method BeginLogin(op: OpId)
      requires Valid() && Enabled(View(), Action.BeginLogin(op))
      modifies this
      ensures Took(Action.BeginLogin(op)) && marker.None?
      ensures ops == old(ops)[op := LoginFetching(old(ops[op]).tab, old(ops[op]).token)]
      ensures shared == old(shared) && private == old(private) && OnlyMayPublish(View(), {})
    {
      RemoveMarker(Op(op));
      ops := ops[op := LoginFetching(ops[op].tab, ops[op].token)];
      OnlyMarkedMayPublish(View(), {});
      Note(Action.BeginLogin(op));
    }

    /** A logout begins; nothing is touched until the server has been told. */
    method BeginLogout(op: OpId)
      requires Valid() && Enabled(View(), Action.BeginLogout(op))
      modifies this
      ensures Took(Action.BeginLogout(op)) && ops == old(ops)[op := LoggingOut(old(ops[op]).tab)]
      ensures Untouched() && private == old(private)
    {
      ops := ops[op := LoggingOut(ops[op].tab)];
      Note(Action.BeginLogout(op));
    }

    /** Clearing leaves neither a session nor a switch that could bring one back. */
    method ClearSession(op: OpId)
      requires Valid() && Enabled(View(), BeginClear(op))
      modifies this
      ensures Took(BeginClear(op)) && ops == old(ops)[op := Cleaning]
      ensures Token(old(ops[op]).tab).None? && User(old(ops[op]).tab).None? && OnlyMayPublish(View(), {})
      ensures forall tab | tab != old(ops[op]).tab :: OwnStore(tab) == old(OwnStore(tab))
    {
      ClearStorages(ops[op].tab, Op(op));
      ops := ops[op := Cleaning];
      OnlyMarkedMayPublish(View(), {});
      Note(BeginClear(op));
    }

    /** A session stored directly, without taking the lock: every switch under way is
        cancelled, and the session is stored unless other data has to be purged first. */
    method StoreSession(op: OpId, tab: Tab, token: Token, user: User)
      requires Valid() && Enabled(View(), SetSession(op, tab, token, user))
      modifies this
      ensures Took(SetSession(op, tab, token, user)) && op in ops
      ensures Saves(old(View()), View(), op, tab, token, user, Direct(op), DirectPurging(tab, token, user))
      ensures OnlyMayPublish(View(), {})
      ensures ops[op].Finished? ==> Token(tab) == Some(token) && User(tab) == Some(user)
      ensures !ops[op].Finished? ==> shared == old(shared) && private == old(private)
    {
      Save(op, Direct(op), tab, token, user, DirectPurging(tab, token, user));
      OnlyMarkedMayPublish(View(), {});
      Note(SetSession(op, tab, token, user));
    }

    /** A token stored alone: every tab sends it, and every switch under way is
        cancelled unless the marker is to be kept. */
    method StoreToken(tab: Tab, token: Token, preserve: bool)
      requires Valid()
      modifies this
      ensures Took(SetToken(tab, token, preserve))
      ensures forall any :: Token(any) == Some(token) && User(any) == old(User(any))
      ensures if preserve then marker == old(marker) else OnlyMayPublish(View(), {})
    {
      ghost var before := View();
      private := private[tab := OwnStore(tab).(token := Some(token))];
      shared := shared.(token := Some(token));
      if !preserve {
        RemoveMarker(Page(tab));
        OnlyMarkedMayPublish(View(), {});
      }
      assert View() == Apply(before, SetToken(tab, token, preserve));
      Note(SetToken(tab, token, preserve));
    }

    /** The user fetched with a token is stored only while the tab still sends that
        token; no token and no marker is touched. */
    method StoreUser(tab: Tab, token: Token, user: User)
      requires Valid()
      modifies this
      ensures Valid() && (forall any :: Token(any) == old(Token(any))) && marker == old(marker)
      ensures old(Token(tab)) == Some(token) ==> Took(StoreProfile(tab, token, user)) && User(tab) == Some(user)
      ensures old(Token(tab)) != Some(token) ==> View() == old(View())
    {
      if Token(tab) == Some(token) {
        private := private[tab := OwnStore(tab).(user := Some(user))];
        shared := shared.(user := Some(user));
        Note(StoreProfile(tab, token, user));
      }
    }

    /** The logout requests have been answered, one way or the other. If this is the
        logout of a failed switch, it destroys a newer token exactly if one was the
        last thing stored or wiped after the switch had decided to log out. */
    method FinishLogout(op: OpId)
      requires Valid() && Enabled(View(), LogoutAnswered(op))
      modifies this
      ensures Took(LogoutAnswered(op)) && ops == old(ops)[op := Cleaning]
      ensures Token(old(ops[op]).tab).None? && User(old(ops[op]).tab).None? && OnlyMayPublish(View(), {})
      ensures forall d {:trigger GaveUp(old(run), old(actions), d, op)} | 0 <= d && GaveUp(old(run), old(actions), d, op) ::
        NewerThan(old(run)[d], old(actions)[d], op, old(shared.token)) <==> NewerStoredSince(old(run), old(actions), d, op)
    {
      forall d {:trigger GaveUp(run, actions, d, op)} | 0 <= d && GaveUp(run, actions, d, op)
        ensures NewerThan(run[d], actions[d], op, shared.token) <==> NewerStoredSince(run, actions, d, op)
      {
        FailedSwitchDestroysExactly(run, actions, d, op);
      }
      ClearStorages(ops[op].tab, Op(op));
      ops := ops[op := Cleaning];
      OnlyMarkedMayPublish(View(), {});
      Note(LogoutAnswered(op));
    }

    /** The end of a purge or of a cookie request changes nothing that is shared. */
    method CleanUp(op: OpId)
      requires Valid() && Enabled(View(), Cleaned(op))
      modifies this
      ensures Took(Cleaned(op)) && ops == old(ops)[op := Finished]
      ensures Untouched() && private == old(private)
    {
      ops := ops[op := Finished];
      Note(Cleaned(op));
    }

    /** An operation asks for the lock. */
    method Ask(op: OpId, task: Task)
      requires Valid() && !task.ResetWaiting? && Enabled(View(), Arrive(op, task))
      modifies this
      ensures Took(Arrive(op, task)) && ops == old(ops)[op := task]
      ensures Untouched() && private == old(private)
    {
      ops := ops[op := task];
      Note(Arrive(op, task));
    }

    /** Whether the rejected request carried what the tab would send now. Tidying the
        private storage does not change what that is. */
    method CheckToken(tab: Tab, request: Option<Token>) returns (current: bool)
      modifies this`private
      ensures View() == AfterCheck(old(View()), tab, request)
      ensures current == MayReset(old(View()), tab, request)
      ensures current <==> old(Token(tab)) == request
      ensures Token(tab) == old(Token(tab))
    {
      var own := OwnStore(tab).token;
      if request.None? {
        return own.None? && shared.token.None?;
      }
      CurrentMeansSent(View(), tab, request.value);
      if own.Some? && shared.token.Some? && own != shared.token {
        if shared.token == request || own == request {
          ClearOwn(tab);
        }
        return shared.token == request;
      }
      return (shared.token.None? || shared.token == request) && (own.None? || own == request)
        && (own.Some? || shared.token.Some?);
    }

    /** The second look, under the lock: the session is wiped in this very step exactly
        if the rejected request carried what the tab sends; otherwise nothing shared
        is touched. */
    method ResetUnauthorized(op: OpId)
      requires Valid() && Enabled(View(), BeginReset(op))
      modifies this
      ensures Took(BeginReset(op))
      ensures var task := old(ops[op]);
        if old(Token(ops[op].tab)) == task.request then
          shared == EMPTY && Token(task.tab).None? && OnlyMayPublish(View(), {})
        else Untouched() && Token(task.tab) == old(Token(ops[op].tab))
    {
      var tab, request := ops[op].tab, ops[op].request;
      var current := CheckToken(tab, request);
      if current {
        ClearStorages(tab, Op(op));
        ops := ops[op := Cleaning];
        OnlyMarkedMayPublish(View(), {});
      } else {
        ops := ops[op := Finished];
      }
      Note(BeginReset(op));
    }

    /** An unauthorized answer: the first look at the tokens, before the lock. It
        touches nothing shared and lets through only what the tab sends. */
    method AskReset(op: OpId, tab: Tab, request: Option<Token>)
      requires Valid() && Enabled(View(), Arrive(op, ResetWaiting(tab, request)))
      modifies this
      ensures Took(Arrive(op, ResetWaiting(tab, request))) && op in ops
      ensures Untouched() && Token(tab) == old(Token(tab))
      ensures ops[op].ResetWaiting? <==> old(Token(tab)) == request
    {
      var current := CheckToken(tab, request);
      ops := ops[op := if current then ResetWaiting(tab, request) else Finished];
      Note(Arrive(op, ResetWaiting(tab, request)));
    }
  }
}
