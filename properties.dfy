/**
 * What the endpoint promises, stated over the decision functions: the order
 * of the checks, what each failure leaves untouched, the idempotence of
 * blocking, what the report handler does to the visitor, and what any
 * sequence of requests does to the forum data.
 */
module MobileApiProperties {
  import opened Wrappers
  import opened MobileApi

  // ---------------------------------------------------------------- block_user

  /** A missing id is the first check: no lookup happens, whatever the users
      and collaborators, and (0, 0) gets this error rather than the self-block one. */
  lemma BlockMissingIdsFirst(s: State, req: Request, env: Env)
    requires req.action == Some("block_user")
    requires req.blockerId == 0 || req.blockedId == 0
    ensures Handle(s, req, env) == Outcome(s, Fail(400, MissingIds))
  {
  }

  /** Blocking oneself is refused whether or not that user exists. */
  lemma BlockSelfRefused(s: State, req: Request, env: Env)
    requires req.action == Some("block_user")
    requires req.blockerId != 0 && req.blockerId == req.blockedId
    ensures Handle(s, req, env) == Outcome(s, Fail(400, SelfBlock))
  {
  }

  /** An unknown blocker or blocked user gives 404 and inserts nothing. */
  lemma BlockUnknownUser(s: State, req: Request, env: Env)
    requires req.action == Some("block_user")
    requires req.blockerId != 0 && req.blockedId != 0 && req.blockerId != req.blockedId
    requires !FailsAt(env.fault, FindUsers)
    requires req.blockerId !in s.users || req.blockedId !in s.users
    ensures Handle(s, req, env) == Outcome(s, Fail(404, UsersNotFound))
  {
  }

  /** An existing pair is reported as success and the table is left as it is. */
  lemma BlockAlreadyBlocked(s: State, req: Request, env: Env)
    requires req.action == Some("block_user")
    requires req.blockerId != 0 && req.blockedId != 0 && req.blockerId != req.blockedId
    requires req.blockerId in s.users && req.blockedId in s.users
    requires !FailsAt(env.fault, FindUsers) && !FailsAt(env.fault, QueryIgnored)
    requires (req.blockerId, req.blockedId) in s.ignored
    ensures Handle(s, req, env) == Outcome(s, Ok(AlreadyBlocked))
  {
  }

  /** A successful block adds exactly the requested pair and nothing else. */
  lemma BlockAddsExactlyOnePair(s: State, req: Request, env: Env)
    requires req.action == Some("block_user")
    requires req.blockerId != 0 && req.blockedId != 0 && req.blockerId != req.blockedId
    requires req.blockerId in s.users && req.blockedId in s.users
    requires (req.blockerId, req.blockedId) !in s.ignored
    requires !FailsAt(env.fault, FindUsers) && !FailsAt(env.fault, QueryIgnored) && !FailsAt(env.fault, SaveIgnored)
    ensures Handle(s, req, env).response == Ok(Blocked)
    ensures Handle(s, req, env).state == s.(ignored := s.ignored + {(req.blockerId, req.blockedId)})
    ensures |Handle(s, req, env).state.ignored| == |s.ignored| + 1
  {
  }

  /** A collaborator exception gives 500 with its message as `details`, and
      the table (like everything else) is unchanged. That a failed insert
      leaves no row is a modelling assumption (XenForo saves an entity in a
      transaction), not something this script enforces. */
  lemma BlockFaultChangesNothing(s: State, req: Request, env: Env)
    requires req.action == Some("block_user")
    requires Handle(s, req, env).response.status == 500
    ensures env.fault.ThrowsAt?
    ensures Handle(s, req, env) == Outcome(s, Crash(BlockFailed, env.fault.msg))
  {
  }

  /** Conversely, an exception at a call the request reaches (the user
      lookups; with both users found, the query; with the pair new, the
      insert) gives 500 with its message as `details` and changes nothing. */
  lemma BlockFaultGivesServerError(s: State, req: Request, env: Env)
    requires req.action == Some("block_user")
    requires req.blockerId != 0 && req.blockedId != 0 && req.blockerId != req.blockedId
    requires || FailsAt(env.fault, FindUsers)
             || (&& req.blockerId in s.users && req.blockedId in s.users
                 && (|| FailsAt(env.fault, QueryIgnored)
                     || ((req.blockerId, req.blockedId) !in s.ignored && FailsAt(env.fault, SaveIgnored))))
    ensures Handle(s, req, env) == Outcome(s, Crash(BlockFailed, env.fault.msg))
  {
  }

  /** Blocking is idempotent: repeating a request leaves the state one call
      produced, and after a success answer any repetition changes nothing. */
  lemma BlockIsIdempotent(s: State, req: Request, env: Env, again: Env)
    requires req.action == Some("block_user")
    ensures Handle(Handle(s, req, env).state, req, env).state == Handle(s, req, env).state
    ensures Handle(s, req, env).response.status == 200 ==>
      Handle(Handle(s, req, env).state, req, again).state == Handle(s, req, env).state
    ensures Handle(s, req, env).response.status == 200 && again.fault == NoFault ==>
      Handle(Handle(s, req, env).state, req, again).response == Ok(AlreadyBlocked)
  {
  }

  // --------------------------------------------------------------- report_post

  /** A missing post id is the first check: no lookup, no report, visitor untouched. */
  lemma ReportMissingPostId(s: State, req: Request, env: Env)
    requires req.action == Some("report_post") && req.postId == 0
    ensures Handle(s, req, env) == Outcome(s, Fail(400, PostIdRequired))
  {
  }

  /** An unknown post is reported before the reporter is looked at. */
  lemma ReportPostNotFoundFirst(s: State, req: Request, env: Env)
    requires req.action == Some("report_post") && req.postId != 0
    requires !FailsAt(env.fault, FindPost) && req.postId !in s.posts
    ensures Handle(s, req, env) == Outcome(s, Fail(404, PostNotFound))
  {
  }

  /** An unknown reporter gives 404; no report is made and the visitor is untouched. */
  lemma ReportReporterNotFound(s: State, req: Request, env: Env)
    requires req.action == Some("report_post") && req.postId != 0 && req.postId in s.posts
    requires !FailsAt(env.fault, FindPost) && !FailsAt(env.fault, FindReporter)
    requires req.reporterId !in s.users
    ensures Handle(s, req, env) == Outcome(s, Fail(404, ReporterNotFound))
  {
  }

  /** On well-formed data an absent `reporter_id` (read as 0) finds no reporter. */
  lemma ReportAbsentReporter(s: State, req: Request, env: Env)
    requires WellFormed(s)
    requires req.action == Some("report_post") && req.postId in s.posts
    requires !FailsAt(env.fault, FindPost) && !FailsAt(env.fault, FindReporter)
    requires req.reporterId == 0
    ensures Handle(s, req, env) == Outcome(s, Fail(404, ReporterNotFound))
  {
  }

  /**
   * Once the post and the reporter are found, the visitor becomes the
   * reporter and stays so on every outcome of the creator (it is not restored
   * to the visitor before the request), and the creator's outcome decides the
   * answer and whether one report, filed as the reporter, is stored.
   */
  lemma ReportAfterValidation(s: State, req: Request, env: Env)
    requires req.action == Some("report_post") && req.postId != 0
    requires req.postId in s.posts && req.reporterId in s.users
    requires !FailsAt(env.fault, FindPost) && !FailsAt(env.fault, FindReporter)
    ensures Handle(s, req, env).state.visitor == req.reporterId
    ensures s.visitor != req.reporterId ==> Handle(s, req, env).state.visitor != s.visitor
    ensures env.creator == Invalid ==>
      Handle(s, req, env) == Outcome(s.(visitor := req.reporterId), Fail(400, ValidationFailed))
    ensures env.creator == SaveNull ==>
      Handle(s, req, env) == Outcome(s.(visitor := req.reporterId), Fail(500, ReportFailed))
    ensures env.creator.Throws? ==>
      Handle(s, req, env) == Outcome(s.(visitor := req.reporterId), Crash(ReportFailed, env.creator.msg))
    ensures env.creator.Saved? ==>
      && Handle(s, req, env).response == Response(200, Message(Reported, Some(env.creator.reportId)))
      && Handle(s, req, env).state == s.(visitor := req.reporterId,
           reports := s.reports + [Report(env.creator.reportId, req.postId, req.reporterId, Reason(req.message))])
  {
  }

  /** Without a `message` parameter the stored report gives the default reason. */
  lemma ReportDefaultReason(s: State, req: Request, env: Env)
    requires req.action == Some("report_post") && req.message == None
    requires Handle(s, req, env).response.status == 200
    ensures Handle(s, req, env).state.reports[|s.reports|].message == DefaultReason
  {
  }

  /** An exception while finding the post, which comes before the visitor
      switch, leaves everything as it was. */
  lemma ReportLookupFaultChangesNothing(s: State, req: Request, env: Env)
    requires req.action == Some("report_post") && req.postId != 0
    requires FailsAt(env.fault, FindPost)
    ensures Handle(s, req, env) == Outcome(s, Crash(ReportFailed, env.fault.msg))
  {
  }

  /** An exception while finding the reporter (the post was found) also comes
      before the visitor switch: 500 with `details`, and nothing changes, even
      when the reporter exists. */
  lemma ReportReporterFaultChangesNothing(s: State, req: Request, env: Env)
    requires req.action == Some("report_post") && req.postId != 0 && req.postId in s.posts
    requires FailsAt(env.fault, FindReporter)
    ensures Handle(s, req, env) == Outcome(s, Crash(ReportFailed, env.fault.msg))
  {
  }

  // ------------------------------------------------------- sequences of requests

  /** One request together with how its collaborators behave. */
  datatype Call = Call(req: Request, env: Env)

  /** The state after a sequence of requests, handled one after the other.
      Each request runs the script afresh, so the visitor that one request
      leaves and the next one starts from stands for nothing in the script;
      no lemma about `Run` speaks of it. */
  function Run(s: State, calls: seq<Call>): State
    decreases |calls|
  {
    if calls == [] then s else Run(Handle(s, calls[0].req, calls[0].env).state, calls[1..])
  }

  /** Some request in `calls` is a `block_user` for `pair`. */
  ghost predicate BlockRequested(calls: seq<Call>, pair: (int, int)) {
    exists i :: 0 <= i < |calls| && calls[i].req.action == Some("block_user")
                && (calls[i].req.blockerId, calls[i].req.blockedId) == pair
  }

  /** One request keeps the forum data well-formed. */
  lemma HandlePreservesWellFormed(s: State, req: Request, env: Env)
    requires WellFormed(s)
    ensures WellFormed(Handle(s, req, env).state)
  {
  }

  /** Any sequence of requests keeps the forum data well-formed: every
      ignored pair joins two distinct users and every report an existing post and user. */
  lemma {:induction false} RunPreservesWellFormed(s: State, calls: seq<Call>)
    requires WellFormed(s)
    ensures WellFormed(Run(s, calls))
    decreases |calls|
  {
    if calls != [] {
      HandlePreservesWellFormed(s, calls[0].req, calls[0].env);
      RunPreservesWellFormed(Handle(s, calls[0].req, calls[0].env).state, calls[1..]);
    }
  }

  /** No sequence of requests unblocks anyone, removes or rewrites a report,
      or changes the users and posts; each request adds at most one report. */
  lemma {:induction false} RunOnlyGrows(s: State, calls: seq<Call>)
    ensures Run(s, calls).users == s.users && Run(s, calls).posts == s.posts
    ensures s.ignored <= Run(s, calls).ignored
    ensures s.reports <= Run(s, calls).reports
    ensures |Run(s, calls).reports| <= |s.reports| + |calls|
    decreases |calls|
  {
    if calls != [] {
      RunOnlyGrows(Handle(s, calls[0].req, calls[0].env).state, calls[1..]);
    }
  }

  /** Every pair a sequence of requests adds was asked for by one of its `block_user` requests. */
  lemma {:induction false} RunBlocksAreRequested(s: State, calls: seq<Call>)
    ensures forall pair :: pair in Run(s, calls).ignored && pair !in s.ignored ==> BlockRequested(calls, pair)
    decreases |calls|
  {
    if calls != [] {
      var next := Handle(s, calls[0].req, calls[0].env).state;
      RunBlocksAreRequested(next, calls[1..]);
      forall pair | pair in Run(s, calls).ignored && pair !in s.ignored
        ensures BlockRequested(calls, pair)
      {
        if pair in next.ignored {
          assert calls[0].req.action == Some("block_user");
          assert (calls[0].req.blockerId, calls[0].req.blockedId) == pair;
        } else {
          var i :| 0 <= i < |calls[1..]| && calls[1..][i].req.action == Some("block_user")
                   && (calls[1..][i].req.blockerId, calls[1..][i].req.blockedId) == pair;
          assert calls[i + 1] == calls[1..][i];
        }
      }
    }
  }
}
