/** The provider's authentication lifecycle.

    The provider holds whether it is authenticating, the configuration it
    shows or connected with, the active driver, the last verification error,
    the selected database and the configuration persisted for the next page
    load. Drivers are opaque handles; connectivity verification is a call
    into the driver library, so its outcome is an input of the completion
    step rather than something the model computes. Each asynchronous step
    is split into the synchronous part and its completion, and completions
    arrive as separate, sequential events.

    `ViewOf` is what the provider renders: a placeholder while it
    authenticates, the login form while it has no driver, and otherwise the
    connected children. */
module Lifecycle {
  import opened Wrappers
  import opened Connection
  import Resolver

  /** An opaque driver handle. */
  datatype Handle = Handle(id: nat)

  /** The error a failed connectivity verification reports. */
  datatype Error = Error(message: string)

  /** How a connectivity verification ended. */
  datatype Outcome = Verified | Failed(error: Error)

  datatype State = State(
    authenticating: bool,
    config: Option<Config>,
    driver: Option<Handle>,
    error: Option<Error>,
    database: Option<string>,
    stored: Option<Config>)

  datatype View =
    | Placeholder
    | LoginForm(error: Option<Error>, prefill: Option<Config>)
    | Connected(driver: Handle, config: Option<Config>, database: Option<string>)

  /** What the provider renders in a state. */
  function ViewOf(s: State): (v: View)
    ensures v.Placeholder? <==> s.authenticating
    ensures v.LoginForm? <==> !s.authenticating && s.driver.None?
    ensures v.Connected? <==> !s.authenticating && s.driver.Some?
    ensures v.LoginForm? ==> v.error == s.error && v.prefill == s.config
    ensures v.Connected? ==> Some(v.driver) == s.driver && v.config == s.config && v.database == s.database
  {
    if s.authenticating then Placeholder
    else if s.driver.None? then LoginForm(s.error, s.config)
    else Connected(s.driver.value, s.config, s.database)
  }

  /** The state of a freshly created provider: authenticating, showing the
      persisted configuration (`None` when nothing is persisted), with the
      caller's driver and database if any. */
  function Initial(supplied: Option<Handle>, database: Option<string>, stored: Option<Config>): (s: State)
    ensures ViewOf(s) == Placeholder
    ensures s.config == stored && s.stored == stored
    ensures s.driver == supplied && s.error.None? && s.database == database
  {
    State(true, stored, supplied, None, database, stored)
  }

  /** The synchronous part of a connection request: the submitted
      configuration is shown at once and the provider authenticates. The
      database is set to its own current value, so it does not change, and
      in particular is not taken from the submitted configuration. */
  function BeginUpdate(s: State, c: Config): (t: State)
    ensures ViewOf(t) == Placeholder
    ensures t.config == Some(c)
    ensures t.database == s.database
    ensures t.driver == s.driver && t.error == s.error && t.stored == s.stored
  {
    s.(authenticating := true, config := Some(c), database := s.database)
  }

  /** Completion of a connection request for configuration `c`, whose new
      driver is `h`. Success makes `h` the driver and persists exactly `c`;
      failure records the error and keeps the driver and the persisted
      configuration. Either way the provider stops authenticating. */
  function FinishUpdate(s: State, c: Config, h: Handle, o: Outcome): (t: State)
    ensures !t.authenticating
    ensures t.config == s.config && t.database == s.database
    ensures o.Verified? ==> t.driver == Some(h) && t.stored == Some(c) && t.error == s.error
    ensures o.Verified? ==> ViewOf(t) == Connected(h, s.config, s.database)
    ensures o.Failed? ==> t.error == Some(o.error) && t.driver == s.driver && t.stored == s.stored
    ensures o.Failed? && s.driver.None? ==> ViewOf(t) == LoginForm(Some(o.error), s.config)
    ensures o.Failed? && s.driver.Some? ==> ViewOf(t) == Connected(s.driver.value, s.config, s.database)
  {
    var settled :=
      match o
      case Verified => s.(driver := Some(h), stored := Some(c))
      case Failed(e) => s.(error := Some(e));
    settled.(authenticating := false)
  }

  /** Completion of the verification of a driver the caller supplied: the
      driver becomes active whatever the outcome, and a failure is only
      recorded. */
  function FinishSupplied(s: State, h: Handle, o: Outcome): (t: State)
    ensures ViewOf(t) == Connected(h, s.config, s.database)
    ensures t.error == (if o.Failed? then Some(o.error) else s.error)
    ensures t.stored == s.stored
  {
    var checked := if o.Failed? then s.(error := Some(o.error)) else s;
    checked.(driver := Some(h), authenticating := false)
  }

  /** Without a caller-supplied driver, the driver effect only stops the
      provider authenticating. */
  function SettleWithoutDriver(s: State): (t: State)
    ensures !t.authenticating
    ensures t.driver == s.driver && t.error == s.error && t.config == s.config
    ensures t.database == s.database && t.stored == s.stored
  {
    s.(authenticating := false)
  }

  /** The database setter handed to connected children. */
  function SetDatabase(s: State, database: Option<string>): (t: State)
    ensures t.database == database
    ensures t.authenticating == s.authenticating && t.config == s.config
    ensures t.driver == s.driver && t.error == s.error && t.stored == s.stored
    ensures ViewOf(s).Connected? ==> ViewOf(t) == ViewOf(s).(database := database)
    ensures ViewOf(s).LoginForm? ==> ViewOf(t) == ViewOf(s)
  {
    s.(database := database)
  }

  /** The state after the provider's first render and both its effects ran:
      the driver effect (which, without a supplied driver, stops
      authenticating) and then the URL-parameter effect (which starts a
      connection request when the query resolves to a configuration). */
  function Mount(supplied: Option<Handle>, database: Option<string>, stored: Option<Config>,
                 search: Option<Resolver.Query>): (s: State)
    ensures s.authenticating <==> supplied.Some? || Resolver.Resolve(false, search).Some?
    ensures s.driver == supplied && s.error.None? && s.stored == stored && s.database == database
    ensures supplied.Some? ==> s.config == stored
    ensures supplied.None? ==> s.config == (if Resolver.Resolve(false, search).Some? then Resolver.Resolve(false, search) else stored)
  {
    var initial := Initial(supplied, database, stored);
    var settled := if supplied.None? then SettleWithoutDriver(initial) else initial;
    match Resolver.Resolve(supplied.Some?, search)
    case None => settled
    case Some(c) => BeginUpdate(settled, c)
  }

  /** With a supplied driver the page's query is never consulted: every
      query gives the same mounted state. */
  lemma MountIgnoresQueryWithDriver(h: Handle, database: Option<string>, stored: Option<Config>,
                                    q1: Option<Resolver.Query>, q2: Option<Resolver.Query>)
    ensures Mount(Some(h), database, stored, q1) == Mount(Some(h), database, stored, q2)
    ensures ViewOf(Mount(Some(h), database, stored, q1)) == Placeholder
  {
  }

  /** Without a supplied driver, a query that does not resolve leaves the
      provider showing the login form with the persisted configuration, and
      one that resolves shows the placeholder while it connects. */
  lemma MountView(database: Option<string>, stored: Option<Config>, search: Option<Resolver.Query>)
    ensures Resolver.Resolve(false, search).None? ==>
      ViewOf(Mount(None, database, stored, search)) == LoginForm(None, stored)
    ensures Resolver.Resolve(false, search).Some? ==>
      ViewOf(Mount(None, database, stored, search)) == Placeholder
  {
  }

  /** The events the provider reacts to, one at a time. */
  datatype Event =
    | Submit(config: Config)
    | SubmitSettled(config: Config, handle: Handle, outcome: Outcome)
    | SuppliedSettled(handle: Handle, outcome: Outcome)
    | NoDriverSettled
    | SelectDatabase(database: Option<string>)

  function Step(s: State, e: Event): State {
    match e
    case Submit(c) => BeginUpdate(s, c)
    case SubmitSettled(c, h, o) => FinishUpdate(s, c, h, o)
    case SuppliedSettled(h, o) => FinishSupplied(s, h, o)
    case NoDriverSettled => SettleWithoutDriver(s)
    case SelectDatabase(d) => SetDatabase(s, d)
  }

  /** The state after the events `es`, in order. */
  function Run(s: State, es: seq<Event>): State
    decreases |es|
  {
    if es == [] then s else Run(Step(s, es[0]), es[1..])
  }

  /** Running one more event is one more step. */
  lemma {:induction false} RunSnoc(s: State, es: seq<Event>, e: Event)
    ensures Run(s, es + [e]) == Step(Run(s, es), e)
    decreases |es|
  {
    if es == [] {
      assert es + [e] == [e];
    } else {
      assert (es + [e])[0] == es[0];
      assert (es + [e])[1..] == es[1..] + [e];
      RunSnoc(Step(s, es[0]), es[1..], e);
    }
  }

  /** The configuration of the last successfully verified connection
      request among `es`, if any. */
  function LastVerified(es: seq<Event>): Option<Config>
    decreases |es|
  {
    if es == [] then None
    else
      match es[|es| - 1]
      case SubmitSettled(c, _, Verified) => Some(c)
      case _ => LastVerified(es[..|es| - 1])
  }

  /** The driver of the last event that installs one among `es`, if any:
      a successful connection request or any settled supplied driver. */
  function LastDriver(es: seq<Event>): Option<Handle>
    decreases |es|
  {
    if es == [] then None
    else
      match es[|es| - 1]
      case SubmitSettled(_, h, Verified) => Some(h)
      case SuppliedSettled(h, _) => Some(h)
      case _ => LastDriver(es[..|es| - 1])
  }

  /** The database of the last database selection among `es`, if any. */
  function LastSelected(es: seq<Event>): Option<Option<string>>
    decreases |es|
  {
    if es == [] then None
    else
      match es[|es| - 1]
      case SelectDatabase(d) => Some(d)
      case _ => LastSelected(es[..|es| - 1])
  }

  /** The persisted configuration is the one of the last successful
      connection request, or the initial one when none succeeded: failed
      requests never touch it. */
  lemma {:induction false} StoredIsLastVerified(s: State, es: seq<Event>)
    ensures Run(s, es).stored == (if LastVerified(es).Some? then LastVerified(es) else s.stored)
    decreases |es|
  {
    if es != [] {
      var init, e := es[..|es| - 1], es[|es| - 1];
      assert es == init + [e];
      RunSnoc(s, init, e);
      StoredIsLastVerified(s, init);
    }
  }

  /** The active driver is the one of the last successful connection request
      or settled supplied driver, or the initial one. */
  lemma {:induction false} DriverIsLastInstalled(s: State, es: seq<Event>)
    ensures Run(s, es).driver == (if LastDriver(es).Some? then LastDriver(es) else s.driver)
    decreases |es|
  {
    if es != [] {
      var init, e := es[..|es| - 1], es[|es| - 1];
      assert es == init + [e];
      RunSnoc(s, init, e);
      DriverIsLastInstalled(s, init);
    }
  }

  /** The selected database changes only through the database setter:
      connection requests, whatever their configuration, never change it. */
  lemma {:induction false} DatabaseIsLastSelected(s: State, es: seq<Event>)
    ensures Run(s, es).database == (if LastSelected(es).Some? then LastSelected(es).value else s.database)
    decreases |es|
  {
    if es != [] {
      var init, e := es[..|es| - 1], es[|es| - 1];
      assert es == init + [e];
      RunSnoc(s, init, e);
      DatabaseIsLastSelected(s, init);
    }
  }

  /** No event removes the driver or clears the error. */
  lemma {:induction false} DriverAndErrorPersist(s: State, es: seq<Event>)
    ensures s.driver.Some? ==> Run(s, es).driver.Some?
    ensures s.error.Some? ==> Run(s, es).error.Some?
    decreases |es|
  {
    if es != [] {
      DriverAndErrorPersist(Step(s, es[0]), es[1..]);
    }
  }

  /** Once connected, the provider never shows the login form again, even
      after a failed connection request. */
  lemma ConnectedNeverShowsLogin(s: State, es: seq<Event>)
    requires ViewOf(s).Connected?
    ensures !ViewOf(Run(s, es)).LoginForm?
  {
    DriverAndErrorPersist(s, es);
  }
}
