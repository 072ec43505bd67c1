/**
 * The endpoint script as it runs: the forum data it reads and writes are
 * fields that its handlers update in place, and each handler returns the
 * response that the script would print before `exit()`.
 */
module Endpoint {
  import opened Wrappers
  import opened MobileApi

  class Site {
    var users: set<int>            // `xf_user` ids
    var posts: set<int>            // `xf_post` ids
    var ignored: set<(int, int)>   // `xf_user_ignored` rows (user_id, ignored_user_id)
    var visitor: int               // the user `\XF::visitor()` returns
    var reports: seq<Report>       // reports saved by the report creator

    constructor (s: State)
      ensures Snapshot() == s
    {
      users, posts, ignored, visitor, reports := s.users, s.posts, s.ignored, s.visitor, s.reports;
    }

    /** The fields as one value, to compare with the decision functions. */
    function Snapshot(): State
      reads this
    {
      State(users, posts, ignored, visitor, reports)
    }

    /** One request: dispatch on `action` exactly as the script's top level does. */
    method Handle(req: Request, env: Env) returns (resp: Response)
      modifies this`ignored, this`visitor, this`reports
      ensures Snapshot() == MobileApi.Handle(old(Snapshot()), req, env).state
      ensures resp == MobileApi.Handle(old(Snapshot()), req, env).response
    {
      if req.action == Some("block_user") {
        resp := BlockUser(req.blockerId, req.blockedId, env.fault);
        return;
      }
      if req.action == Some("report_post") {
        resp := ReportPost(req.postId, req.reporterId, req.message, env);
        return;
      }
      resp := Fail(400, InvalidAction);
    }

    /** The `block_user` branch; only the ignored table may change. */
    method BlockUser(blocker: int, blocked: int, fault: Fault) returns (resp: Response)
      modifies this`ignored
      ensures Snapshot() == MobileApi.BlockUser(old(Snapshot()), blocker, blocked, fault).state
      ensures resp == MobileApi.BlockUser(old(Snapshot()), blocker, blocked, fault).response
      ensures ignored == old(ignored) + (if resp == Ok(Blocked) then {(blocker, blocked)} else {})
    {
      if blocker == 0 || blocked == 0 {
        return Fail(400, MissingIds);
      }
      if blocker == blocked {
        return Fail(400, SelfBlock);
      }
      // from here on inside `try`: a collaborator exception becomes a 500
      if FailsAt(fault, FindUsers) {
        return Crash(BlockFailed, fault.msg);
      }
      var found := blocker in users && blocked in users;
      if !found {
        return Fail(404, UsersNotFound);
      }
      if FailsAt(fault, QueryIgnored) {
        return Crash(BlockFailed, fault.msg);
      }
      if (blocker, blocked) in ignored {
        return Ok(AlreadyBlocked);
      }
      if FailsAt(fault, SaveIgnored) {
        return Crash(BlockFailed, fault.msg);
      }
      ignored := ignored + {(blocker, blocked)};
      resp := Ok(Blocked);
    }

    /** The `report_post` branch; only the visitor and the report list may change. */
    method ReportPost(postId: int, reporterId: int, message: Option<string>, env: Env) returns (resp: Response)
      modifies this`visitor, this`reports
      ensures Snapshot() == MobileApi.ReportPost(old(Snapshot()), postId, reporterId, message, env).state
      ensures resp == MobileApi.ReportPost(old(Snapshot()), postId, reporterId, message, env).response
    {
      var reason := message.GetOr(DefaultReason);
      if postId == 0 {
        return Fail(400, PostIdRequired);
      }
      // from here on inside `try … finally`: a collaborator exception becomes a 500
      if FailsAt(env.fault, FindPost) {
        return Crash(ReportFailed, env.fault.msg);
      }
      if postId !in posts {
        // `exit()` here leaves without running the `finally` block
        return Fail(404, PostNotFound);
      }
      if FailsAt(env.fault, FindReporter) {
        return Crash(ReportFailed, env.fault.msg);
      }
      if reporterId !in users {
        return Fail(404, ReporterNotFound);
      }
      visitor := reporterId;
      match env.creator {
        case Invalid =>
          // `exit()`, again without the `finally` block
          return Fail(400, ValidationFailed);
        case Throws(m) =>
          resp := Crash(ReportFailed, m);
        case SaveNull =>
          resp := Fail(500, ReportFailed);
        case Saved(id) =>
          // the creator files the report as the current visitor
          reports := reports + [Report(id, postId, visitor, reason)];
          resp := Response(200, Message(Reported, Some(id)));
      }
      // `finally` (line 137) sets the visitor to the current visitor, so it
      // changes nothing on any path that reaches it: after line 113 the
      // visitor stays the reporter, and on the lookup-exception returns above
      // it stays what it was
    }
  }
}
