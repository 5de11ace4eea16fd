/**
  Notification channels: immutable endpoint versions, rotating secrets, and deliveries that pin the
  revision and key that were current when they were queued.
 */
module Channels {
  import opened Prelude
  import Runs

  datatype Provider = Webhook | Bark

  datatype Endpoint = Endpoint(provider: Provider, active: bool, revision: nat)

  /** A row of endpoint_versions: a URL for a webhook, a configuration for Bark. */
  datatype Version = Version(url: string, config: string)

  datatype Secret = Secret(value: string, active: bool)

  type Keys = map<nat, Secret>

  /** The endpoint, revision and key columns of a delivery. */
  datatype Pin = Pin(endpoint: nat, revision: nat, key: nat)

  /** A queued delivery and, as history, what its pin meant when it was queued. */
  datatype Queued = Queued(pin: Pin, version: Version, secret: string)

  type Rows = map<nat, Queued>

  datatype Db = Db(
    endpoints: map<nat, Endpoint>,
    versions: map<nat, map<nat, Version>>, // by endpoint, then revision
    secrets: map<nat, Keys>,               // by endpoint, then key
    queue: map<string, Rows>,              // deliveries by event, then endpoint: unique together
    nextEndpoint: nat,
    nextKey: nat)

  /** The key every endpoint starts with; rotated keys are fresh. */
  const K1 := 0
  const EMPTY := Db(map[], map[], map[], map[], 0, 1)

  datatype Op =
    | CreateWebhook(name: string, url: string, secret: string)
    | CreateBark(name: string, deviceKey: string, config: string)
    | Update(endpoint: nat, expectedRevision: nat, name: string, url: string, config: string)
    | Rotate(endpoint: nat, secret: string)
    | SetStatus(endpoint: nat, on: bool)
    | Queue(event: string)

  predicate DeviceKeyOk(key: string) {
    0 < |key| <= 500 && forall c <- key :: c >= ' ' && c != '\U{00007F}'
  }

  // ---- Transactions ----

  function Created(db: Db, provider: Provider, version: Version, secret: string): Db {
    var e := db.nextEndpoint;
    db.(endpoints := db.endpoints[e := Endpoint(provider, false, 1)],
        versions := db.versions[e := map[1 := version]],
        secrets := db.secrets[e := map[K1 := Secret(secret, true)]],
        nextEndpoint := e + 1)
  }

  predicate UpdateOk(db: Db, e: nat, expectedRevision: nat, name: string, url: string) {
    && name != "" && e in db.endpoints && e in db.versions && db.endpoints[e].revision == expectedRevision
    && (db.endpoints[e].provider == Webhook ==> url != "")
  }

  function VersionFor(provider: Provider, url: string, config: string): Version {
    if provider == Webhook then Version(url, "{}") else Version("", config)
  }

  function Updated(db: Db, e: nat, url: string, config: string): Db
    requires e in db.endpoints && e in db.versions
  {
    var r: nat := db.endpoints[e].revision + 1;
    var version := VersionFor(db.endpoints[e].provider, url, config);
    var versions: map<nat, Version> := db.versions[e][r := version];
    db.(endpoints := db.endpoints[e := db.endpoints[e].(revision := r)], versions := db.versions[e := versions])
  }

  function Retired(keys: Keys): Keys {
    map k | k in keys :: keys[k].(active := false)
  }

  predicate RotateOk(db: Db, e: nat, secret: string) {
    e in db.endpoints && e in db.secrets && (db.endpoints[e].provider == Bark ==> DeviceKeyOk(secret))
  }

  function Rotated(db: Db, e: nat, secret: string): Db
    requires e in db.secrets
  {
    db.(secrets := db.secrets[e := Retired(db.secrets[e])[db.nextKey := Secret(secret, true)]],
        nextKey := db.nextKey + 1)
  }

  /** The key the fan-out query joins: the ACTIVE one, or k1 when there is none. */
  ghost function ActiveKeyOf(keys: Keys): nat {
    if exists k <- keys :: keys[k].active then var k :| k in keys && keys[k].active; k else K1
  }

  ghost function ActiveKey(db: Db, e: nat): nat {
    if e in db.secrets then ActiveKeyOf(db.secrets[e]) else K1
  }

  ghost function PinOf(db: Db, e: nat): Pin
    requires e in db.endpoints
  {
    Pin(e, db.endpoints[e].revision, ActiveKey(db, e))
  }

  /** What the dispatcher loads for a pin. */
  function Resolve(db: Db, pin: Pin): Option<(Version, string)> {
    var e := pin.endpoint;
    if e in db.versions && pin.revision in db.versions[e] && e in db.secrets && pin.key in db.secrets[e]
    then Some((db.versions[e][pin.revision], db.secrets[e][pin.key].value))
    else None
  }

  ghost function QueuedNow(db: Db, e: nat): Queued
    requires e in db.endpoints
  {
    var pin := PinOf(db, e);
    match Resolve(db, pin)
    case Some((version, secret)) => Queued(pin, version, secret)
    case None => Queued(pin, Version("", ""), "")
  }

  /** The deliveries of one event. */
  function RowsFor(queue: map<string, Rows>, event: string): Rows {
    if event in queue then queue[event] else map[]
  }

  /** One delivery for each active endpoint that has none yet. */
  ghost function FanRows(db: Db, rows: Rows): Rows {
    rows + map e | e in db.endpoints && db.endpoints[e].active && e !in rows :: QueuedNow(db, e)
  }

  ghost function FannedOut(db: Db, event: string): Db {
    db.(queue := db.queue[event := FanRows(db, RowsFor(db.queue, event))])
  }

  ghost function Apply(db: Db, op: Op): Db {
    match op
    case CreateWebhook(name, url, secret) =>
      if name == "" || url == "" then db else Created(db, Webhook, Version(url, "{}"), secret)
    case CreateBark(name, deviceKey, config) =>
      if name == "" || !DeviceKeyOk(deviceKey) then db else Created(db, Bark, Version("", config), deviceKey)
    case Update(e, expectedRevision, name, url, config) =>
      if UpdateOk(db, e, expectedRevision, name, url) then Updated(db, e, url, config) else db
    case Rotate(e, secret) => if RotateOk(db, e, secret) then Rotated(db, e, secret) else db
    case SetStatus(e, on) =>
      if e in db.endpoints then db.(endpoints := db.endpoints[e := db.endpoints[e].(active := on)]) else db
    case Queue(event) => FannedOut(db, event)
  }

  ghost function Run(ops: seq<Op>): Db {
    Runs.Fold(Apply, EMPTY, ops)
  }

  // ---- The invariant ----

  /** The revisions on file are exactly 1 to the current one. */
  ghost predicate VersionsOk(db: Db) {
    && db.versions.Keys == db.endpoints.Keys
    && (forall e <- db.endpoints :: e < db.nextEndpoint && db.endpoints[e].revision >= 1)
    && (forall e <- db.endpoints, r: nat :: r in db.versions[e] <==> 1 <= r <= db.endpoints[e].revision)
  }

  ghost predicate OneActive(keys: Keys) {
    && (exists k <- keys :: keys[k].active)
    && (forall j <- keys, k <- keys :: keys[j].active && keys[k].active ==> j == k)
  }

  ghost predicate KeysOk(keys: Keys, nextKey: nat) {
    OneActive(keys) && forall k <- keys :: k < nextKey
  }

  /** Exactly one secret of every endpoint is ACTIVE. */
  ghost predicate SecretsOk(db: Db) {
    && db.secrets.Keys == db.endpoints.Keys
    && db.nextKey > K1
    && (forall e <- db.secrets :: KeysOk(db.secrets[e], db.nextKey))
  }

  /** Every queued delivery still resolves to what was current when it was queued. */
  ghost predicate QueueOk(db: Db) {
    forall event <- db.queue :: RowsResolve(db, db.queue[event])
  }

  ghost predicate RowsResolve(db: Db, rows: Rows) {
    forall e <- rows ::
      && rows[e].pin.endpoint == e
      && Resolve(db, rows[e].pin) == Some((rows[e].version, rows[e].secret))
  }

  ghost predicate Inv(db: Db) {
    VersionsOk(db) && SecretsOk(db) && QueueOk(db)
  }

  ghost predicate VersionsGrow(db: Db, db': Db) {
    forall e <- db.versions, r <- db.versions[e] ::
      e in db'.versions && r in db'.versions[e] && db'.versions[e][r] == db.versions[e][r]
  }

  ghost predicate KeysGrow(keys: Keys, keys': Keys) {
    forall k <- keys :: k in keys' && keys'[k].value == keys[k].value
  }

  ghost predicate SecretsGrow(db: Db, db': Db) {
    forall e <- db.secrets :: e in db'.secrets && KeysGrow(db.secrets[e], db'.secrets[e])
  }

  ghost predicate QueueGrows(queue: map<string, Rows>, queue': map<string, Rows>) {
    forall event <- queue, e <- queue[event] ::
      event in queue' && e in queue'[event] && queue'[event][e] == queue[event][e]
  }

  /** Versions, secret values and queued deliveries are only ever added. */
  ghost predicate Grows(db: Db, db': Db) {
    && VersionsGrow(db, db') && SecretsGrow(db, db')
    && QueueGrows(db.queue, db'.queue)
  }

  lemma CreatedVersions(db: Db, provider: Provider, version: Version, secret: string)
    requires VersionsOk(db)
    ensures var db' := Created(db, provider, version, secret); VersionsOk(db') && VersionsGrow(db, db')
  {
  }

  lemma CreatedSecrets(db: Db, provider: Provider, version: Version, secret: string)
    requires VersionsOk(db) && SecretsOk(db)
    ensures var db' := Created(db, provider, version, secret); SecretsOk(db') && SecretsGrow(db, db')
  {
    var keys: Keys := map[K1 := Secret(secret, true)];
    assert keys[K1].active && KeysOk(keys, db.nextKey);
  }

  lemma UpdatedVersions(db: Db, e: nat, url: string, config: string)
    requires VersionsOk(db) && e in db.endpoints
    ensures var db' := Updated(db, e, url, config); VersionsOk(db') && VersionsGrow(db, db')
  {
  }

  lemma RotatedKeys(keys: Keys, n: nat, value: string)
    requires KeysOk(keys, n)
    ensures var keys' := Retired(keys)[n := Secret(value, true)]; KeysOk(keys', n + 1) && KeysGrow(keys, keys')
  {
    var keys' := Retired(keys)[n := Secret(value, true)];
    assert keys'[n].active;
  }

  lemma RotatedSecrets(db: Db, e: nat, secret: string)
    requires SecretsOk(db) && e in db.endpoints
    ensures var db' := Rotated(db, e, secret); SecretsOk(db') && SecretsGrow(db, db')
  {
    RotatedKeys(db.secrets[e], db.nextKey, secret);
    forall f <- db.secrets ensures KeysOk(db.secrets[f], db.nextKey + 1) && KeysGrow(db.secrets[f], db.secrets[f]) {
      assert KeysOk(db.secrets[f], db.nextKey);
    }
    hide KeysOk, KeysGrow;
  }

  lemma FanOutResolves(db: Db, e: nat)
    requires VersionsOk(db) && SecretsOk(db) && e in db.endpoints
    ensures var q := QueuedNow(db, e);
            && q.pin.endpoint == e && Resolve(db, q.pin) == Some((q.version, q.secret))
            && q.pin.revision == db.endpoints[e].revision
            && q.pin.key in db.secrets[e] && db.secrets[e][q.pin.key].active
  {
    assert KeysOk(db.secrets[e], db.nextKey);
    assert db.endpoints[e].revision in db.versions[e];
  }

  lemma FanRowsResolve(db: Db, rows: Rows)
    requires VersionsOk(db) && SecretsOk(db) && RowsResolve(db, rows)
    ensures RowsResolve(db, FanRows(db, rows))
  {
    var all := FanRows(db, rows);
    forall e <- all
      ensures all[e].pin.endpoint == e && Resolve(db, all[e].pin) == Some((all[e].version, all[e].secret))
    {
      if e !in rows {
        FanOutResolves(db, e);
      }
    }
    hide QueuedNow, Resolve;
  }

  lemma EmptyResolves(db: Db)
    ensures RowsResolve(db, map[])
  {
  }

  /** Whether rows resolve depends on the versions and secrets alone. */
  lemma ResolveFrame(db: Db, queue: map<string, Rows>, rows: Rows)
    requires RowsResolve(db, rows)
    ensures RowsResolve(db.(queue := queue), rows)
  {
  }

  lemma FannedOutKeepsInv(db: Db, event: string)
    requires Inv(db)
    ensures Inv(FannedOut(db, event)) && Grows(db, FannedOut(db, event))
  {
    hide FanRows, RowsResolve, VersionsOk, SecretsOk, VersionsGrow, SecretsGrow;
    var db' := FannedOut(db, event);
    var rows := RowsFor(db.queue, event);
    EmptyResolves(db);
    FanRowsResolve(db, rows);
    forall other <- db'.queue ensures RowsResolve(db', db'.queue[other]) {
      ResolveFrame(db, db'.queue, db'.queue[other]);
    }
    FannedOutGrows(db, event);
  }

  lemma FannedOutGrows(db: Db, event: string)
    requires VersionsOk(db) && SecretsOk(db)
    ensures Grows(db, FannedOut(db, event))
    ensures VersionsOk(FannedOut(db, event)) && SecretsOk(FannedOut(db, event))
  {
    hide QueuedNow;
  }

  lemma GrowsKeepsQueue(db: Db, db': Db)
    requires VersionsGrow(db, db') && SecretsGrow(db, db') && db'.queue == db.queue && QueueOk(db)
    ensures QueueOk(db')
  {
    forall event <- db'.queue ensures RowsResolve(db', db'.queue[event]) {
      var rows := db.queue[event];
      assert RowsResolve(db, rows);
      forall e <- rows
        ensures rows[e].pin.endpoint == e && Resolve(db', rows[e].pin) == Some((rows[e].version, rows[e].secret))
      {
        var pin := rows[e].pin;
        assert Resolve(db, pin).Some? && KeysGrow(db.secrets[pin.endpoint], db'.secrets[pin.endpoint]);
      }
    }
  }

  lemma UpdatedSecrets(db: Db, e: nat, url: string, config: string)
    requires SecretsOk(db) && e in db.endpoints && e in db.versions
    ensures var db' := Updated(db, e, url, config); SecretsOk(db') && SecretsGrow(db, db')
  {
  }

  lemma RotatedVersions(db: Db, e: nat, secret: string)
    requires VersionsOk(db) && e in db.secrets
    ensures var db' := Rotated(db, e, secret); VersionsOk(db') && VersionsGrow(db, db')
  {
  }

  lemma UnchangedGrows(db: Db)
    ensures VersionsGrow(db, db) && SecretsGrow(db, db)
  {
  }

  lemma StatusKeepsRows(db: Db, e: nat, on: bool)
    requires VersionsOk(db) && SecretsOk(db)
    ensures var db' := Apply(db, SetStatus(e, on));
            VersionsOk(db') && SecretsOk(db') && VersionsGrow(db, db') && SecretsGrow(db, db')
  {
    hide VersionsGrow, SecretsGrow, KeysOk;
    UnchangedGrows(db);
    SameTablesGrow(db, Apply(db, SetStatus(e, on)));
  }

  lemma SameTablesGrow(db: Db, db': Db)
    requires db'.versions == db.versions && db'.secrets == db.secrets
    ensures VersionsGrow(db, db') && SecretsGrow(db, db')
  {
  }

  lemma OnlyQueueQueues(db: Db, op: Op)
    requires !op.Queue?
    ensures Apply(db, op).queue == db.queue
  {
  }

  lemma ApplyKeepsRows(db: Db, op: Op)
    requires VersionsOk(db) && SecretsOk(db) && !op.Queue?
    ensures var db' := Apply(db, op);
            VersionsOk(db') && SecretsOk(db') && VersionsGrow(db, db') && SecretsGrow(db, db')
  {
    hide VersionsOk, SecretsOk, VersionsGrow, SecretsGrow, Created, Updated, Rotated;
    UnchangedGrows(db);
    if Apply(db, op) == db {
      return;
    }
    match op
    case CreateWebhook(_, url, secret) =>
      CreatedVersions(db, Webhook, Version(url, "{}"), secret);
      CreatedSecrets(db, Webhook, Version(url, "{}"), secret);
    case CreateBark(_, deviceKey, config) =>
      CreatedVersions(db, Bark, Version("", config), deviceKey);
      CreatedSecrets(db, Bark, Version("", config), deviceKey);
    case Update(e, _, _, url, config) =>
      UpdatedVersions(db, e, url, config);
      UpdatedSecrets(db, e, url, config);
    case Rotate(e, secret) =>
      RotatedSecrets(db, e, secret);
      RotatedVersions(db, e, secret);
    case SetStatus(e, on) => StatusKeepsRows(db, e, on);
  }

  lemma ApplyKeepsInv(db: Db, op: Op)
    requires Inv(db)
    ensures Inv(Apply(db, op)) && Grows(db, Apply(db, op))
  {
    if op.Queue? {
      FannedOutKeepsInv(db, op.event);
    } else {
      ApplyKeepsRows(db, op);
      OnlyQueueQueues(db, op);
      GrowsKeepsQueue(db, Apply(db, op));
    }
    hide Apply, VersionsOk, SecretsOk, QueueOk, VersionsGrow, SecretsGrow;
  }

  lemma Reachable(ops: seq<Op>)
    ensures Inv(Run(ops))
  {
    forall db: Db, op: Op | Inv(db) ensures Inv(Apply(db, op)) {
      ApplyKeepsInv(db, op);
    }
    hide Inv, Apply;
    Runs.Invariant(Apply, Inv, EMPTY, ops);
  }

  // ---- What holds in every run ----

  /** An endpoint's revisions are 1 to its current one, and one of its secrets is active. */
  lemma VersionsDenseOneSecret(ops: seq<Op>, e: nat)
    requires e in Run(ops).endpoints
    ensures var db := Run(ops);
            && e in db.versions && e in db.secrets
            && (forall r: nat :: r in db.versions[e] <==> 1 <= r <= db.endpoints[e].revision)
            && (exists k <- db.secrets[e] :: db.secrets[e][k].active)
            && (forall j <- db.secrets[e], k <- db.secrets[e] ::
                  db.secrets[e][j].active && db.secrets[e][k].active ==> j == k)
  {
    Reachable(ops);
    var db := Run(ops);
    assert KeysOk(db.secrets[e], db.nextKey);
  }

  /** A version on file is never changed by anything that happens later. */
  lemma {:induction false} VersionsAreImmutable(ops: seq<Op>, k: nat, e: nat, r: nat)
    requires k <= |ops| && e in Run(ops[..k]).versions && r in Run(ops[..k]).versions[e]
    ensures e in Run(ops).versions && r in Run(ops).versions[e]
    ensures Run(ops).versions[e][r] == Run(ops[..k]).versions[e][r]
    decreases |ops| - k
  {
    if k == |ops| {
      assert ops[..k] == ops;
    } else {
      Reachable(ops[..k]);
      Runs.Prefix(Apply, EMPTY, ops, k);
      ApplyKeepsInv(Run(ops[..k]), ops[k]);
      VersionsAreImmutable(ops, k + 1, e, r);
    }
  }

  /**
    The delivery of `event` to `e` is queued after `k` transactions. Whatever edits, rotations and
    toggles follow, it resolves to the version and the secret that were current at that moment.
   */
  lemma PinsResolveForever(ops: seq<Op>, k: nat, event: string, e: nat)
    requires k < |ops| && ops[k] == Queue(event)
    requires var then' := Run(ops[..k]);
             e in then'.endpoints && then'.endpoints[e].active && e !in RowsFor(then'.queue, event)
    ensures var then', now := Run(ops[..k]), Run(ops);
            && event in now.queue && e in now.queue[event]
            && e in then'.versions && then'.endpoints[e].revision in then'.versions[e]
            && e in then'.secrets && ActiveKey(then', e) in then'.secrets[e]
            && then'.secrets[e][ActiveKey(then', e)].active
            && Resolve(now, now.queue[event][e].pin)
               == Some((then'.versions[e][then'.endpoints[e].revision], then'.secrets[e][ActiveKey(then', e)].value))
  {
    var then' := Run(ops[..k]);
    Reachable(ops[..k]);
    FanOutResolves(then', e);
    Runs.Prefix(Apply, EMPTY, ops, k);
    QueueIsImmutable(ops, k + 1, event, e);
    Reachable(ops);
    assert RowsResolve(Run(ops), Run(ops).queue[event]);
  }

  lemma {:induction false} QueueIsImmutable(ops: seq<Op>, k: nat, event: string, e: nat)
    requires k <= |ops| && event in Run(ops[..k]).queue && e in Run(ops[..k]).queue[event]
    ensures event in Run(ops).queue && e in Run(ops).queue[event]
    ensures Run(ops).queue[event][e] == Run(ops[..k]).queue[event][e]
    decreases |ops| - k
  {
    if k == |ops| {
      assert ops[..k] == ops;
    } else {
      Reachable(ops[..k]);
      Runs.Prefix(Apply, EMPTY, ops, k);
      ApplyKeepsInv(Run(ops[..k]), ops[k]);
      QueueIsImmutable(ops, k + 1, event, e);
    }
  }

  // ---- What an edit and a rotation come to ----

  lemma StepKeepsEndpoint(db: Db, op: Op, e: nat)
    requires e in db.endpoints && e < db.nextEndpoint && e in db.secrets
    ensures var db' := Apply(db, op);
            && e in db'.endpoints && e in db'.secrets && db'.endpoints[e].provider == db.endpoints[e].provider
            && (!(op.Update? && op.endpoint == e) ==> db'.endpoints[e].revision == db.endpoints[e].revision)
            && (!(op.Rotate? && op.endpoint == e) ==> db'.secrets[e] == db.secrets[e])
  {
    hide FanRows;
  }

  lemma Joined(db: Db, e: nat)
    requires Inv(db) && e in db.endpoints
    ensures e < db.nextEndpoint && e in db.secrets && e in db.versions
  {
  }

  lemma {:induction false} RunKeepsEndpoint(ops: seq<Op>, k: nat, e: nat)
    requires k <= |ops| && e in Run(ops[..k]).endpoints
    ensures var db, db' := Run(ops[..k]), Run(ops);
            && e in db'.endpoints && e in db.secrets && e in db'.secrets
            && ((forall j :: k <= j < |ops| ==> !(ops[j].Update? && ops[j].endpoint == e)) ==>
                  db'.endpoints[e].revision == db.endpoints[e].revision)
            && ((forall j :: k <= j < |ops| ==> !(ops[j].Rotate? && ops[j].endpoint == e)) ==>
                  db'.secrets[e] == db.secrets[e])
    decreases |ops| - k
  {
    hide Apply, Inv;
    Reachable(ops[..k]);
    Joined(Run(ops[..k]), e);
    if k == |ops| {
      assert ops[..k] == ops;
    } else {
      Runs.Prefix(Apply, EMPTY, ops, k);
      StepKeepsEndpoint(Run(ops[..k]), ops[k], e);
      RunKeepsEndpoint(ops, k + 1, e);
    }
  }

  /**
    An edit that passes the compare-and-set becomes the next version of its endpoint, with the URL of a
    webhook or the configuration of a Bark channel as passed. It stays on file for good, and is the
    current version until the next edit of that endpoint.
   */
  lemma EditTakesEffect(ops: seq<Op>, k: nat, e: nat, revision: nat, name: string, url: string, config: string)
    requires k < |ops| && ops[k] == Update(e, revision, name, url, config)
    requires var db := Run(ops[..k]);
             name != "" && e in db.endpoints && db.endpoints[e].revision == revision
             && (db.endpoints[e].provider == Webhook ==> url != "")
    ensures var db, provider := Run(ops), Run(ops[..k]).endpoints[e].provider;
            && e in db.versions && revision + 1 in db.versions[e]
            && db.versions[e][revision + 1] == (if provider == Webhook then Version(url, "{}") else Version("", config))
            && e in db.endpoints
            && ((forall j :: k < j < |ops| ==> !(ops[j].Update? && ops[j].endpoint == e)) ==>
                  db.endpoints[e].revision == revision + 1)
  {
    hide Apply, Inv;
    Runs.Prefix(Apply, EMPTY, ops, k);
    Reachable(ops[..k]);
    Joined(Run(ops[..k]), e);
    EditLeaves(Run(ops[..k]), e, revision, name, url, config);
    hide Run;
    VersionsAreImmutable(ops, k + 1, e, revision + 1);
    RunKeepsEndpoint(ops, k + 1, e);
  }

  lemma EditLeaves(db: Db, e: nat, revision: nat, name: string, url: string, config: string)
    requires name != "" && e in db.endpoints && e in db.versions && db.endpoints[e].revision == revision
    requires db.endpoints[e].provider == Webhook ==> url != ""
    ensures var db' := Apply(db, Update(e, revision, name, url, config));
            && e in db'.endpoints && db'.endpoints[e].revision == revision + 1
            && e in db'.versions && revision + 1 in db'.versions[e]
            && db'.versions[e][revision + 1] ==
               if db.endpoints[e].provider == Webhook then Version(url, "{}") else Version("", config)
  {
  }

  lemma RotationLeaves(db: Db, e: nat, secret: string)
    requires e in db.endpoints && e in db.secrets && (db.endpoints[e].provider == Webhook || DeviceKeyOk(secret))
    ensures var db' := Apply(db, Rotate(e, secret));
            && e in db'.endpoints && e in db'.secrets
            && (exists key <- db'.secrets[e] :: db'.secrets[e][key].active)
            && (forall key <- db'.secrets[e] :: db'.secrets[e][key].active ==> db'.secrets[e][key].value == secret)
  {
    var keys := Apply(db, Rotate(e, secret)).secrets[e];
    assert keys[db.nextKey].active;
  }

  /** A rotation makes its secret the active one of its endpoint, until the next rotation there. */
  lemma RotationTakesEffect(ops: seq<Op>, k: nat, e: nat, secret: string)
    requires k < |ops| && ops[k] == Rotate(e, secret)
    requires e in Run(ops[..k]).endpoints
    requires Run(ops[..k]).endpoints[e].provider == Webhook || DeviceKeyOk(secret)
    requires forall j :: k < j < |ops| ==> !(ops[j].Rotate? && ops[j].endpoint == e)
    ensures e in Run(ops).secrets
    ensures forall key <- Run(ops).secrets[e] ::
              Run(ops).secrets[e][key].active ==> Run(ops).secrets[e][key].value == secret
    ensures exists key <- Run(ops).secrets[e] :: Run(ops).secrets[e][key].active
  {
    hide Apply, Inv, DeviceKeyOk;
    Runs.Prefix(Apply, EMPTY, ops, k);
    Reachable(ops[..k]);
    Joined(Run(ops[..k]), e);
    RotationLeaves(Run(ops[..k]), e, secret);
    hide Run;
    RunKeepsEndpoint(ops, k + 1, e);
  }

  // ---- The store ----

  class ChannelStore {
    var endpoints: map<nat, Endpoint>
    var versions: map<nat, map<nat, Version>>
    var secrets: map<nat, Keys>
    var queue: map<string, Rows>
    var nextEndpoint: nat
    var nextKey: nat

    ghost function Tables(): Db
      reads this
    {
      Db(endpoints, versions, secrets, queue, nextEndpoint, nextKey)
    }

    /** Every endpoint has rows in the two tables keyed by it; part of the invariant. */
    ghost predicate RowsJoin()
      reads this
    {
      endpoints.Keys == versions.Keys == secrets.Keys
    }

    constructor ()
      ensures Tables() == EMPTY && Inv(Tables())
    {
      endpoints, versions, secrets, queue, nextEndpoint, nextKey := map[], map[], map[], map[], 0, 1;
    }

    method CreateEndpointWithSecret(name: string, url: string, secret: string) returns (created: Option<nat>)
      modifies this
      ensures Tables() == Apply(old(Tables()), CreateWebhook(name, url, secret))
      ensures created == if name == "" || url == "" then None else Some(old(nextEndpoint))
      ensures created.Some? ==>
                && endpoints == old(endpoints)[created.value := Endpoint(Webhook, false, 1)]
                && versions == old(versions)[created.value := map[1 := Version(url, "{}")]]
                && secrets == old(secrets)[created.value := map[0 := Secret(secret, true)]]
      ensures created.None? ==> Tables() == old(Tables())
    {
      if name == "" || url == "" {
        return None;
      }
      var e := nextEndpoint;
      endpoints := endpoints[e := Endpoint(Webhook, false, 1)];
      versions := versions[e := map[1 := Version(url, "{}")]];
      secrets := secrets[e := map[K1 := Secret(secret, true)]];
      nextEndpoint := e + 1;
      return Some(e);
    }

    method CreateBarkChannel(name: string, deviceKey: string, config: string) returns (created: Option<nat>)
      modifies this
      ensures Tables() == Apply(old(Tables()), CreateBark(name, deviceKey, config))
      ensures created == if name == "" || !DeviceKeyOk(deviceKey) then None else Some(old(nextEndpoint))
      ensures created.Some? <==>
                name != "" && 0 < |deviceKey| <= 500 && forall c <- deviceKey :: 32 <= c as int && c as int != 127
      ensures created.Some? ==>
                && endpoints == old(endpoints)[created.value := Endpoint(Bark, false, 1)]
                && versions == old(versions)[created.value := map[1 := Version("", config)]]
                && secrets == old(secrets)[created.value := map[0 := Secret(deviceKey, true)]]
      ensures created.None? ==> Tables() == old(Tables())
    {
      if name == "" || !DeviceKeyOk(deviceKey) {
        return None;
      }
      var e := nextEndpoint;
      endpoints := endpoints[e := Endpoint(Bark, false, 1)];
      versions := versions[e := map[1 := Version("", config)]];
      secrets := secrets[e := map[K1 := Secret(deviceKey, true)]];
      nextEndpoint := e + 1;
      return Some(e);
    }

    /** Compare-and-set on the revision, then a new immutable version. */
    method UpdateChannel(e: nat, expectedRevision: nat, name: string, url: string, config: string) returns (ok: bool)
      requires RowsJoin()
      modifies this
      ensures Tables() == Apply(old(Tables()), Update(e, expectedRevision, name, url, config))
      ensures ok == UpdateOk(old(Tables()), e, expectedRevision, name, url)
      ensures ok <==> name != "" && e in old(endpoints) && old(endpoints)[e].revision == expectedRevision
                      && (old(endpoints)[e].provider == Webhook ==> url != "")
      // one more version, made of what was passed for that provider, is the current one
      ensures ok ==>
                var r: nat, provider := expectedRevision + 1, old(endpoints)[e].provider;
                var version := if provider == Webhook then Version(url, "{}") else Version("", config);
                var revised: map<nat, Version> := old(versions)[e][r := version];
                && versions == old(versions)[e := revised]
                && endpoints == old(endpoints)[e := Endpoint(provider, old(endpoints)[e].active, r)]
      ensures !ok ==> versions == old(versions) && endpoints == old(endpoints)
      ensures unchanged(`secrets, `queue, `nextEndpoint, `nextKey)
    {
      if name == "" || e !in endpoints || endpoints[e].revision != expectedRevision {
        return false;
      }
      var urlVal, cfg;
      if endpoints[e].provider == Webhook {
        if url == "" {
          return false;
        }
        urlVal, cfg := url, "{}";
      } else {
        urlVal, cfg := "", config;
      }
      var newRev := endpoints[e].revision + 1;
      versions := versions[e := versions[e][newRev := Version(urlVal, cfg)]];
      endpoints := endpoints[e := endpoints[e].(revision := newRev)];
      return true;
    }

    /** Retires whatever is active, then inserts the new active key. */
    method RotateSecret(e: nat, secret: string) returns (ok: bool)
      requires RowsJoin()
      modifies this
      ensures Tables() == Apply(old(Tables()), Rotate(e, secret))
      ensures ok == RotateOk(old(Tables()), e, secret)
      ensures ok <==> e in old(endpoints)
                      && (old(endpoints)[e].provider == Bark ==>
                            0 < |secret| <= 500 && forall c <- secret :: 32 <= c as int && c as int != 127)
      // the new secret is active under a fresh key, every other one of the endpoint retired but kept
      ensures ok ==>
                && e in old(secrets) && e in secrets && secrets == old(secrets)[e := secrets[e]]
                && secrets[e].Keys == old(secrets)[e].Keys + {old(nextKey)}
                && secrets[e][old(nextKey)] == Secret(secret, true)
                && (forall k <- old(secrets)[e] ::
                      k != old(nextKey) ==> k in secrets[e] && secrets[e][k] == Secret(old(secrets)[e][k].value, false))
      ensures !ok ==> secrets == old(secrets)
      ensures unchanged(`endpoints, `versions, `queue, `nextEndpoint)
    {
      if e !in endpoints {
        return false;
      }
      if endpoints[e].provider == Bark && !DeviceKeyOk(secret) {
        return false;
      }
      var keyId := nextKey;
      nextKey := nextKey + 1;
      var keys := RetireActive(secrets[e]);
      secrets := secrets[e := keys[keyId := Secret(secret, true)]];
      return true;
    }

    /** Every active secret of the endpoint is retired. */
    static method RetireActive(keys: Keys) returns (retired: Keys)
      ensures retired == Retired(keys)
      ensures retired.Keys == keys.Keys && forall k <- keys :: retired[k] == Secret(keys[k].value, false)
    {
      retired := map k | k in keys :: if keys[k].active then keys[k].(active := false) else keys[k];
    }

    method SetEndpointStatus(e: nat, on: bool) returns (ok: bool)
      modifies this`endpoints
      ensures Tables() == Apply(old(Tables()), SetStatus(e, on))
      ensures ok == (e in old(endpoints))
      ensures endpoints ==
              if ok then old(endpoints)[e := Endpoint(old(endpoints)[e].provider, on, old(endpoints)[e].revision)]
              else old(endpoints)
    {
      if e !in endpoints {
        return false;
      }
      endpoints := endpoints[e := endpoints[e].(active := on)];
      return true;
    }

    /** DeliveryTargetForDelivery: the pinned version joined with the pinned key. */
    method DeliveryTarget(pin: Pin) returns (target: Option<(Version, string)>)
      ensures target == Resolve(Tables(), pin)
      ensures target.Some? <==> pin.endpoint in versions && pin.revision in versions[pin.endpoint]
                                && pin.endpoint in secrets && pin.key in secrets[pin.endpoint]
      ensures target.Some? ==>
                target.value == (versions[pin.endpoint][pin.revision], secrets[pin.endpoint][pin.key].value)
      ensures Inv(Tables()) && (exists event <- queue, e <- queue[event] :: queue[event][e].pin == pin) ==> target.Some?
    {
      assert Inv(Tables()) ==> forall event <- queue :: RowsResolve(Tables(), queue[event]);
      var e := pin.endpoint;
      if e !in versions || pin.revision !in versions[e] || e !in secrets || pin.key !in secrets[e] {
        return None;
      }
      return Some((versions[e][pin.revision], secrets[e][pin.key].value));
    }
  }
}
