/**
 * The decision logic of the XenForo mobile API endpoint (`mobileapi.php`):
 * the action dispatcher and its two handlers, `block_user` and `report_post`,
 * as functions from the forum state, the request and the behaviour of the
 * collaborators (XenForo's finders, the entity manager, the report creator)
 * to the new forum state and the (HTTP status, JSON body) the script emits.
 */
module MobileApi {
  import opened Wrappers

  // The texts the endpoint puts in its JSON bodies.
  const MissingIds := "Both blocker_id and blocked_id are required"
  const SelfBlock := "You cannot block yourself"
  const UsersNotFound := "One or both users not found"
  const AlreadyBlocked := "User is already blocked"
  const Blocked := "User blocked successfully"
  const BlockFailed := "Failed to block user"
  const PostIdRequired := "Post ID is required"
  const PostNotFound := "Post not found"
  const ReporterNotFound := "Reporter user not found"
  const ValidationFailed := "Validation failed"
  const ReportFailed := "Failed to report post"
  const Reported := "Post reported successfully"
  const InvalidAction := "Invalid action specified"
  const DefaultReason := "No reason provided."

  /** A JSON body: `{"message": …, "report_id": …}` or `{"error": …, "details": …}`. */
  datatype Body =
    | Message(text: string, reportId: Option<int>)
    | Error(text: string, details: Option<string>)

  datatype Response = Response(status: int, body: Body)

  function Ok(text: string): Response { Response(200, Message(text, None)) }
  function Fail(status: int, text: string): Response { Response(status, Error(text, None)) }
  function Crash(text: string, details: string): Response { Response(500, Error(text, Some(details))) }

  /**
   * The query string, after PHP's `?? 0` and `(int)`: an absent or
   * non-numeric id is 0; `action` and `message` may be absent.
   */
  datatype Request = Request(
    action: Option<string>,
    blockerId: int,
    blockedId: int,
    postId: int,
    reporterId: int,
    message: Option<string>)

  /** The collaborator calls inside a `try` block that may throw. */
  datatype CallSite = FindUsers | QueryIgnored | SaveIgnored | FindPost | FindReporter

  /** Whether, and where, a collaborator throws during this request. */
  datatype Fault = NoFault | ThrowsAt(site: CallSite, msg: string)

  /** What the opaque report creator does: its `validate()` fails, its
      `save()` returns nothing or a report, or it throws. */
  datatype CreatorOutcome = Invalid | SaveNull | Saved(reportId: int) | Throws(msg: string)

  /** The behaviour of everything outside the script for one request. */
  datatype Env = Env(fault: Fault, creator: CreatorOutcome)

  /** A report as the creator stores it: its id, the post, the acting user and the reason. */
  datatype Report = Report(id: int, postId: int, userId: int, message: string)

  /**
   * What the endpoint reads and writes: existing user and post ids, the
   * `xf_user_ignored` pairs (blocker, blocked), the global visitor (a user id)
   * and the reports created so far.
   */
  datatype State = State(
    users: set<int>,
    posts: set<int>,
    ignored: set<(int, int)>,
    visitor: int,
    reports: seq<Report>)

  datatype Outcome = Outcome(state: State, response: Response)

  predicate FailsAt(fault: Fault, site: CallSite) {
    fault.ThrowsAt? && fault.site == site
  }

  /** The report reason: the `message` parameter, or the default text when absent. */
  function Reason(message: Option<string>): string {
    message.GetOr(DefaultReason)
  }

  /**
   * The forum data the endpoint relies on: ids are positive (so the id 0 of
   * an absent parameter finds nobody), every ignored pair joins two distinct
   * existing users, and every report names an existing post and user.
   */
  ghost predicate WellFormed(s: State) {
    && (forall u :: u in s.users ==> u > 0)
    && (forall p :: p in s.posts ==> p > 0)
    && (forall pair :: pair in s.ignored ==> pair.0 != pair.1 && pair.0 in s.users && pair.1 in s.users)
    && (forall i :: 0 <= i < |s.reports| ==> s.reports[i].postId in s.posts && s.reports[i].userId in s.users)
  }

  /**
   * The `block_user` branch: two id checks, the user lookups, the
   * "already ignored" query and the insert, each failure ending the request.
   */
  function BlockUser(s: State, blocker: int, blocked: int, fault: Fault): (o: Outcome)
    // nothing but the ignored-pair table can change, and only by the requested pair
    ensures o.state == s.(ignored := o.state.ignored)
    ensures o.state.ignored == s.ignored || o.state.ignored == s.ignored + {(blocker, blocked)}
    // the table grows exactly when the answer is "blocked", and only by a new
    // pair of two distinct existing users
    ensures o.state.ignored != s.ignored <==> o.response == Ok(Blocked)
    ensures o.response == Ok(Blocked) ==>
      && (blocker, blocked) !in s.ignored && blocker != blocked && blocker in s.users && blocked in s.users
      && !FailsAt(fault, FindUsers) && !FailsAt(fault, QueryIgnored) && !FailsAt(fault, SaveIgnored)
    // a client error is exactly a missing id or a self-block
    ensures o.response.status == 400 <==> blocker == 0 || blocked == 0 || blocker == blocked
    // "not found" is exactly an unknown user once the ids pass and the lookup does not throw
    ensures o.response.status == 404 <==>
      blocker != 0 && blocked != 0 && blocker != blocked && !FailsAt(fault, FindUsers)
      && (blocker !in s.users || blocked !in s.users)
    // a server error is exactly an exception at a call the request reaches:
    // the user lookups, then the "already ignored" query, then the insert
    ensures o.response.status == 500 <==>
      && blocker != 0 && blocked != 0 && blocker != blocked
      && (|| FailsAt(fault, FindUsers)
          || (&& blocker in s.users && blocked in s.users
              && (|| FailsAt(fault, QueryIgnored)
                  || ((blocker, blocked) !in s.ignored && FailsAt(fault, SaveIgnored)))))
    // after a success answer the blocker ignores the blocked user
    ensures o.response.status == 200 ==> (blocker, blocked) in o.state.ignored
    ensures o.response.status in {200, 400, 404, 500}
  {
    if blocker == 0 || blocked == 0 then Outcome(s, Fail(400, MissingIds))
    else if blocker == blocked then Outcome(s, Fail(400, SelfBlock))
    else if FailsAt(fault, FindUsers) then Outcome(s, Crash(BlockFailed, fault.msg))
    else if blocker !in s.users || blocked !in s.users then Outcome(s, Fail(404, UsersNotFound))
    else if FailsAt(fault, QueryIgnored) then Outcome(s, Crash(BlockFailed, fault.msg))
    else if (blocker, blocked) in s.ignored then Outcome(s, Ok(AlreadyBlocked))
    else if FailsAt(fault, SaveIgnored) then Outcome(s, Crash(BlockFailed, fault.msg))
    else Outcome(s.(ignored := s.ignored + {(blocker, blocked)}), Ok(Blocked))
  }

  /**
   * The `report_post` branch: the post id check, the post and reporter
   * lookups, the switch of the visitor to the reporter, and the report
   * creator. The visitor is never switched back (see README).
   */
  function ReportPost(s: State, postId: int, reporterId: int, message: Option<string>, env: Env): (o: Outcome)
    // only the visitor and the report list can change
    ensures o.state == s.(visitor := o.state.visitor, reports := o.state.reports)
    // the visitor is untouched or left as the reporter, and is switched only
    // once the post and the reporter have been found without an exception
    ensures o.state.visitor == s.visitor || o.state.visitor == reporterId
    ensures o.state.visitor != s.visitor ==> postId != 0 && postId in s.posts && reporterId in s.users && !FailsAt(env.fault, FindPost) && !FailsAt(env.fault, FindReporter)
    // a report is stored exactly on success, and the success answer carries its id
    ensures o.state.reports != s.reports <==> o.response.status == 200
    ensures o.response.status == 200 ==>
      && env.creator.Saved?
      && postId in s.posts && reporterId in s.users
      && !FailsAt(env.fault, FindPost) && !FailsAt(env.fault, FindReporter)
      && o.response == Response(200, Message(Reported, Some(env.creator.reportId)))
      && o.state.reports == s.reports + [Report(env.creator.reportId, postId, reporterId, Reason(message))]
    ensures o.response.status in {200, 400, 404, 500}
  {
    if postId == 0 then Outcome(s, Fail(400, PostIdRequired))
    else if FailsAt(env.fault, FindPost) then Outcome(s, Crash(ReportFailed, env.fault.msg))
    else if postId !in s.posts then Outcome(s, Fail(404, PostNotFound))
    else if FailsAt(env.fault, FindReporter) then Outcome(s, Crash(ReportFailed, env.fault.msg))
    else if reporterId !in s.users then Outcome(s, Fail(404, ReporterNotFound))
    else
      var acting := s.(visitor := reporterId);
      match env.creator
      case Invalid => Outcome(acting, Fail(400, ValidationFailed))
      case SaveNull => Outcome(acting, Fail(500, ReportFailed))
      case Throws(m) => Outcome(acting, Crash(ReportFailed, m))
      case Saved(id) =>
        var report := Report(id, postId, acting.visitor, Reason(message));
        Outcome(acting.(reports := acting.reports + [report]), Response(200, Message(Reported, Some(id))))
  }

  /** The whole script: dispatch on `action`, then one handler or "invalid action". */
  function Handle(s: State, req: Request, env: Env): (o: Outcome)
    // users and posts are only read
    ensures o.state.users == s.users && o.state.posts == s.posts
    // the ignored table changes only by a `block_user` request's own pair
    ensures o.state.ignored == s.ignored
         || (req.action == Some("block_user") && o.state.ignored == s.ignored + {(req.blockerId, req.blockedId)})
    // the report list changes only by one report from a `report_post` request
    ensures o.state.reports == s.reports
         || (&& req.action == Some("report_post") && env.creator.Saved?
             && o.state.reports == s.reports + [Report(env.creator.reportId, req.postId, req.reporterId, Reason(req.message))])
    // every success is a message and every failure an error
    ensures o.response.body.Message? <==> o.response.status == 200
    ensures o.response.status in {200, 400, 404, 500}
    // an unknown or absent action changes nothing, whatever else is given
    ensures req.action != Some("block_user") && req.action != Some("report_post") ==>
      o.state == s && o.response == Fail(400, InvalidAction)
  {
    if req.action == Some("block_user") then BlockUser(s, req.blockerId, req.blockedId, env.fault)
    else if req.action == Some("report_post") then ReportPost(s, req.postId, req.reporterId, req.message, env)
    else Outcome(s, Fail(400, InvalidAction))
  }
}
