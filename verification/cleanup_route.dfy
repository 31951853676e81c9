/** `/api/sessions/cleanup`: remove expired session folders on request. `POST`
    runs the sweep for an authorised caller; `GET` forwards to `POST` in
    development only. The environment and the request header are parameters. */
module CleanupRoute {
  import opened Wrappers
  import Numbers
  import Session

  /** Development mode, or an `x-cleanup-auth` header equal to
      `CLEANUP_SECRET_KEY`. An absent header and an unset key never match. */
  predicate Authorized(nodeEnv: Option<string>, header: Option<string>, secret: Option<string>) {
    nodeEnv == Some("development") || (header.Some? && secret.Some? && header.value == secret.value)
  }

  function Message(count: nat): string {
    "Cleaned up " + Numbers.NatToString(count) + " old session(s)"
  }

  datatype CleanupReply = CleanupReply(
    status: int,
    message: Option<string>,
    cleanedCount: Option<nat>,
    removed: seq<string>)

  /** `POST`: 401 unless authorised; otherwise the sweep's count and message. */
  method Post(nodeEnv: Option<string>, header: Option<string>, secret: Option<string>,
              listing: Session.Listing, now: int) returns (r: CleanupReply)
    ensures r.status in {200, 401}
    ensures r.status == 200 <==> Authorized(nodeEnv, header, secret)
    ensures r.status == 401 ==> r.removed == [] && r.cleanedCount.None? && r.message.None?
    ensures r.status == 200 ==>
              && r.cleanedCount == Some(|r.removed|)
              && r.message == Some(Message(|r.removed|))
              && r.removed == (if listing.Listed? then Session.RemovedNames(listing.entries, now) else [])
  {
    if !Authorized(nodeEnv, header, secret) {
      return CleanupReply(401, None, None, []);
    }
    var cleaned, removed := Session.CleanupOldSessions(listing, now);
    r := CleanupReply(200, Some(Message(cleaned)), Some(cleaned), removed);
  }

  /** `GET`: 405 outside development, otherwise the same as `POST`. */
  method Get(nodeEnv: Option<string>, header: Option<string>, secret: Option<string>,
             listing: Session.Listing, now: int) returns (r: CleanupReply)
    ensures nodeEnv != Some("development") ==> r == CleanupReply(405, None, None, [])
    ensures nodeEnv == Some("development") ==>
              && r.status == 200
              && r.removed == (if listing.Listed? then Session.RemovedNames(listing.entries, now) else [])
  {
    if nodeEnv != Some("development") {
      return CleanupReply(405, None, None, []);
    }
    r := Post(nodeEnv, header, secret, listing, now);
  }

  /** Outside development, a deployment without a secret refuses every caller. */
  lemma NoSecretNoCleanup(nodeEnv: Option<string>, header: Option<string>)
    requires nodeEnv != Some("development")
    ensures !Authorized(nodeEnv, header, None)
  {
  }

  /** The message names the count: different counts give different messages. */
  lemma MessageDeterminesCount(a: nat, b: nat)
    requires Message(a) == Message(b)
    ensures a == b
  {
    var p := "Cleaned up ";
    var q := " old session(s)";
    var sa := Numbers.NatToString(a);
    var sb := Numbers.NatToString(b);
    assert |sa| == |sb|;
    assert Message(a)[|p|..|p| + |sa|] == sa;
    assert Message(b)[|p|..|p| + |sb|] == sb;
    Numbers.NatToStringInjective(a, b);
  }
}
