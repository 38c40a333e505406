/** Replaying a captured tool call: how its arguments are captured (pkg/mcpmw/audit.go:208-217),
    stored and read back (pkg/audit/postgres/store.go:153-242), and the order of checks in
    auditReplay (pkg/httpsrv/portal_api.go:128-222, 520-525). */
module Replay {
  import opened Json
  import opened Audit
  import opened Redaction
  import Payloads
  import Query
  import RateLimiter

  datatype Config = Config(lower: string -> string, redactKeys: seq<string>, maxPayloadBytes: int)

  // ---------- capture ----------

  /** Arguments as decoded from the request; None is a nil map. */
  type Args = Option<map<string, Json>>

  function SanitizeArgs(cfg: Config, raw: Args): Args {
    SanitizeMap(cfg.lower, cfg.redactKeys, raw)
  }

  /** The captured request_params: dropped as a whole when the encoding is over the cap, or when
      it fails (encodedSize None). */
  function Capture(cfg: Config, encodedSize: Args -> Option<nat>, raw: Args): Args {
    var sanitized := SanitizeArgs(cfg, raw);
    var size := encodedSize(sanitized);
    if size.Some? && (cfg.maxPayloadBytes <= 0 || size.value <= cfg.maxPayloadBytes) then sanitized else None
  }

  datatype Backend = Memory | Postgres

  /** What GetPayload returns for it: PostgreSQL stores an empty object as NULL. */
  function ReadBack(b: Backend, params: Args): Args {
    if b.Postgres? && params == Some(map[]) then None else params
  }

  // ---------- the checks before a replay ----------

  /** Everything auditReplay looks up before it spends a token. */
  datatype Lookup = Lookup(
    serverUp: bool,
    idIsUuid: bool,
    identityKey: string,
    queryFails: bool,
    event: Option<Event>,
    payloadCapable: bool,
    payloadFails: bool,
    payload: Option<Payload>,
    registry: Option<set<string>>)

  datatype Outcome = Refused(status: int) | Limited(retryAfter: int) | Called(tool: string, args: map<string, Json>)

  predicate Replayable(l: Lookup) {
    && l.serverUp && l.idIsUuid && l.identityKey != ""
    && !l.queryFails && l.event.Some?
    && l.payloadCapable && !l.payloadFails
    && l.payload.Some? && l.payload.value.requestParams.Some?
    && !HasRedacted(Obj(l.payload.value.requestParams.value))
    && (l.registry.Some? ==> l.event.value.toolName in l.registry.value)
  }

  /** Each status has its causes. */
  predicate CausedBy(l: Lookup, status: int) {
    match status
    case 400 =>
      || !l.idIsUuid || l.payload.None? || l.payload.value.requestParams.None?
      || HasRedacted(Obj(l.payload.value.requestParams.value))
      || (l.registry.Some? && l.event.Some? && l.event.value.toolName !in l.registry.value)
    case 401 => l.identityKey == ""
    case 404 => l.event.None?
    case 500 => l.queryFails || l.payloadFails
    case 503 => !l.serverUp || !l.payloadCapable
    case _ => false
  }

  /** A request that cannot be replayed is refused without touching the rate limiter; one that can
      be costs one token, and runs, with the captured arguments, exactly when the limiter allows. */
  method AuditReplay(limiter: RateLimiter.Limiter, l: Lookup, now: int) returns (o: Outcome)
    modifies limiter
    ensures !Replayable(l) ==> o.Refused? && limiter.View() == old(limiter.View())
    ensures Replayable(l) ==>
              && limiter.View() == RateLimiter.AfterAllow(limiter.cfg, old(limiter.View()), l.identityKey, now)
              && o == if RateLimiter.Allows(limiter.cfg, old(limiter.View()), l.identityKey, now)
                      then Called(l.event.value.toolName, l.payload.value.requestParams.value)
                      else Limited(RateLimiter.RetryAfter(limiter.cfg, limiter.View().buckets, l.identityKey))
    ensures !l.serverUp ==> o == Refused(503)
    ensures l.serverUp && !l.idIsUuid ==> o == Refused(400)
    ensures l.serverUp && l.idIsUuid && l.identityKey == "" ==> o == Refused(401)
    ensures o.Refused? ==> CausedBy(l, o.status)
  {
    if !l.serverUp { return Refused(503); }
    if !l.idIsUuid { return Refused(400); }
    if l.identityKey == "" { return Refused(401); }
    if l.queryFails { return Refused(500); }
    if l.event.None? { return Refused(404); }
    if !l.payloadCapable { return Refused(503); }
    if l.payloadFails { return Refused(500); }
    if l.payload.None? || l.payload.value.requestParams.None? { return Refused(400); }
    var params := Obj(l.payload.value.requestParams.value);
    var redacted := RedactedAny(params);
    if redacted { return Refused(400); }
    if l.registry.Some? && l.event.value.toolName !in l.registry.value { return Refused(400); }
    var allowed := limiter.Allow(l.identityKey, now);
    if !allowed {
      var retry := limiter.Retry(l.identityKey);
      return Limited(retry);
    }
    // The code passes a deep copy of its mutable maps; see DeepCopy.
    return Called(l.event.value.toolName, params.fields);
  }

  // ---------- fidelity ----------

  /** Captured parameters pass the redaction check exactly when sanitising left the arguments
      alone and they held no placeholder to begin with. */
  lemma OnlyRedactionLosesArguments(cfg: Config, raw: map<string, Json>)
    ensures !HasRedacted(Obj(SanitizeArgs(cfg, Some(raw)).value)) <==>
            SanitizeArgs(cfg, Some(raw)) == Some(raw) && !HasRedacted(Obj(raw))
  {
    FastPathIsTheWalk(cfg.lower, cfg.redactKeys, raw);
    assert Sanitize(Matcher(cfg.lower, cfg.redactKeys), Obj(raw)).Obj?;
    NoPlaceholderIffUntouched(Matcher(cfg.lower, cfg.redactKeys), Obj(raw));
  }

  /** A replay that goes ahead runs with the arguments of the original call (none, if it had none),
      and its own sanitised audit row records exactly those arguments. */
  lemma ReplayIsFaithful(cfg: Config, encodedSize: Args -> Option<nat>, raw: Args, b: Backend, l: Lookup)
    requires Replayable(l)
    requires l.payload.value.requestParams == ReadBack(b, Capture(cfg, encodedSize, raw))
    ensures var args := l.payload.value.requestParams.value;
            && args == (if raw.Some? then raw.value else map[])
            && SanitizeArgs(cfg, Some(args)) == Some(args)
  {
    var args := l.payload.value.requestParams.value;
    assert Some(args) == SanitizeArgs(cfg, raw);
    if raw.Some? {
      OnlyRedactionLosesArguments(cfg, raw.value);
    } else {
      assert !HasRedacted(Obj(map[]));
      FastPathIsTheWalk(cfg.lower, cfg.redactKeys, map[]);
      assert Sanitize(Matcher(cfg.lower, cfg.redactKeys), Obj(map[])).fields == map[];
    }
  }

  /** What PostgreSQL gives back is what its row holds. */
  lemma ReadBackIsTheRow(p: Payload)
    ensures Payloads.ReadPayload(Query.StoredPayload(p)).requestParams == ReadBack(Postgres, p.requestParams)
  {
    Payloads.PayloadRoundTrip(p);
  }

  predicate FitsCap(cfg: Config, size: Option<nat>) {
    size.Some? && (cfg.maxPayloadBytes <= 0 || size.value <= cfg.maxPayloadBytes)
  }

  /** Which calls can be replayed, everything else being in place: exactly those whose arguments
      sanitising leaves alone, that hold no placeholder, that fit the payload cap, and that are not
      the empty object in PostgreSQL. */
  lemma ReplayableIff(cfg: Config, encodedSize: Args -> Option<nat>, raw: map<string, Json>, b: Backend, l: Lookup)
    requires l.serverUp && l.idIsUuid && l.identityKey != "" && !l.queryFails && l.event.Some?
    requires l.payloadCapable && !l.payloadFails && l.payload.Some?
    requires l.registry.Some? ==> l.event.value.toolName in l.registry.value
    requires l.payload.value.requestParams == ReadBack(b, Capture(cfg, encodedSize, Some(raw)))
    ensures Replayable(l) <==>
            && SanitizeArgs(cfg, Some(raw)) == Some(raw) && !HasRedacted(Obj(raw))
            && FitsCap(cfg, encodedSize(Some(raw))) && !(b.Postgres? && raw == map[])
  {
    OnlyRedactionLosesArguments(cfg, raw);
  }
}
