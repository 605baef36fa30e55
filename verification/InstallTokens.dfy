/**
 Tokens minted from a completed install, for one connection of one tenant: the cached access
 token, the stored refresh token, the install row, and the host that rotates refresh tokens.
 Times are seconds.
 */
module InstallTokens {
  import opened Prelude

  const RENEW_MARGIN := 300

  datatype Provider = GitHub | GitLab | Other

  /** A token a host hands out under a grant, or text somebody pasted. A refresh token's serial counts rotations. */
  datatype Token = Access(grant: nat) | Refresh(grant: nat, serial: nat) | Pasted(text: string)

  datatype OAuthTokens = OAuthTokens(access: Token, refresh: Option<Token>)

  datatype Cached = Cached(token: Token, expires: int)

  /** The install row: `grant` numbers the consent it stands for. */
  datatype Install = Install(provider: Provider, installationId: string, grant: nat, working: bool)

  /** The host: how many grants it has given, and the serial of each one's current refresh token. */
  datatype Host = Host(grants: nat, current: map<nat, nat>)

  datatype World = World(now: int, cache: Option<Cached>, secret: Option<Token>, install: Option<Install>, host: Host)

  /** Whether an answer to a refresh carries no refresh token, the one presented, or a new one. */
  datatype Returned = Absent | Same | Rotated

  /** What the host does when asked: refuse, act but lose the answer, or grant. */
  datatype Reply = Refused | Lost(rotated: bool) | Granted(refresh: Returned, lifetime: int)

  /** One request for a token: whether the host address is allowed, the stored secret readable and writable, and the host's reply. */
  datatype Request = Request(allowed: bool, readable: bool, writable: bool, reply: Reply)

  /** How a GitLab consent ends. */
  datatype Consent = Denied | WithoutRefresh | NotStored | Stored

  datatype Step =
    | Tick(seconds: nat)
    | Call(request: Request)
    | ConnectGitHub(installationId: string)
    | ConnectGitLab(consent: Consent)
    | Disconnect
    | Paste(text: string)
    | ClearSecret
    | Restart

  // ----- minting -----

  /** The one value an install may keep. */
  function PersistableSecret(provider: Provider, tokens: OAuthTokens): Result<Token, string> {
    match provider
    case GitHub => Err("an installation token is never persisted")
    case GitLab => if tokens.refresh.None? then Err("no refresh token") else Ok(tokens.refresh.value)
    case Other => Err("no install flow")
  }

  predicate Accepts(h: Host, presented: Token) {
    presented.Refresh? && presented.grant in h.current && h.current[presented.grant] == presented.serial
  }

  /** The host spends the presented refresh token and issues the next one. */
  function Rotate(h: Host, grant: nat): Host
    requires grant in h.current
  {
    h.(current := h.current[grant := h.current[grant] + 1])
  }

  /** A refresh at the host. A token that is not current is refused, whatever else would have happened. */
  function Exchange(h: Host, presented: Token, reply: Reply): (Host, Option<OAuthTokens>) {
    if !Accepts(h, presented) then (h, None)
    else
      match reply
      case Refused => (h, None)
      case Lost(rotated) => (if rotated then Rotate(h, presented.grant) else h, None)
      case Granted(refresh, _) =>
        match refresh
        case Absent => (h, Some(OAuthTokens(Access(presented.grant), None)))
        case Same => (h, Some(OAuthTokens(Access(presented.grant), Some(presented))))
        case Rotated => (Rotate(h, presented.grant), Some(OAuthTokens(Access(presented.grant), Some(Refresh(presented.grant, presented.serial + 1)))))
  }

  /** What a mint leaves, the refresh token it presented, the value it wrote, and the token it got. */
  datatype Minted = Minted(world: World, presented: Option<Token>, written: Option<Token>, token: Option<Cached>)

  function Mint(w: World, install: Install, r: Request): Minted {
    if !r.allowed then Minted(w, None, None, None)
    else
      match install.provider
      case GitHub =>
        if install.installationId != "" && r.reply.Granted? then Minted(w, None, None, Some(Cached(Access(install.grant), w.now + r.reply.lifetime)))
        else Minted(w, None, None, None)
      case GitLab => if r.readable && w.secret.Some? then MintByRefresh(w, w.secret.value, r) else Minted(w, None, None, None)
      case Other => Minted(w, None, None, None)
  }

  function MintByRefresh(w: World, stored: Token, r: Request): Minted {
    var (host, answer) := Exchange(w.host, stored, r.reply);
    var asked := w.(host := host);
    if answer.None? then Minted(asked, Some(stored), None, None)
    else
      var minted := Some(Cached(answer.value.access, w.now + r.reply.lifetime));
      if answer.value.refresh.Some? && answer.value.refresh.value != stored then
        var secret := PersistableSecret(GitLab, answer.value).value;
        if r.writable then Minted(asked.(secret := Some(secret)), Some(stored), Some(secret), minted)
        else Minted(asked, Some(stored), None, None)
      else Minted(asked, Some(stored), None, minted)
  }

  predicate Fresh(w: World) {
    w.cache.Some? && w.cache.value.expires > w.now + RENEW_MARGIN
  }

  /** Mint, and settle the cache and the install's status by how it went. */
  function Asked(w: World, r: Request): Minted
    requires w.install.Some?
  {
    if Fresh(w) then Minted(w, None, None, w.cache)
    else
      var m := Mint(w, w.install.value, r);
      m.(world := m.world.(cache := m.token, install := Some(w.install.value.(working := m.token.Some?))))
  }

  // ----- every step -----

  function Next(w: World, step: Step): World {
    match step
    case Tick(s) => w.(now := w.now + s)
    case Call(r) => if w.install.None? then w else Asked(w, r).world
    case ConnectGitHub(id) => Installed(w.(host := Granting(w.host)), Install(GitHub, id, w.host.grants, true))
    case ConnectGitLab(consent) =>
      (match consent
       case Denied => w
       case Stored => Installed(w.(host := Granting(w.host), secret := Some(Refresh(w.host.grants, 0))), Install(GitLab, "", w.host.grants, true))
       case _ => w.(host := Granting(w.host)))
    case Disconnect => w.(cache := None, install := None, secret := if w.install.Some? then None else w.secret)
    case Paste(text) => w.(secret := Some(Pasted(text)))
    case ClearSecret => w.(secret := None)
    case Restart => w.(cache := None)
  }

  /** A new consent, with the first refresh token of its line. */
  function Granting(h: Host): Host {
    Host(h.grants + 1, h.current[h.grants := 0])
  }

  function Installed(w: World, install: Install): World {
    w.(install := Some(install), cache := None)
  }

  function Run(w: World, steps: seq<Step>): World
    decreases |steps|
  {
    if steps == [] then w else Run(Next(w, steps[0]), steps[1..])
  }

  /** A connection nobody has installed yet. */
  predicate Initial(w: World) {
    w.cache.None? && w.secret.None? && w.install.None? && w.host == Host(0, map[])
  }

  // ----- what every run keeps -----

  predicate Inv(w: World) {
    && (forall g :: g in w.host.current ==> g < w.host.grants)
    && (w.install.Some? ==> w.install.value.grant < w.host.grants)
    && (w.cache.Some? ==> w.install.Some? && w.install.value.working && w.cache.value.token == Access(w.install.value.grant))
    && (w.secret.Some? ==> !w.secret.value.Access?)
    && (w.install.Some? && w.install.value.provider == GitLab ==> OwnSecret(w, w.install.value.grant))
  }

  /** A GitLab install's stored refresh token is of its own consent's line. */
  predicate OwnSecret(w: World, grant: nat) {
    grant in w.host.current && (w.secret.Some? && w.secret.value.Refresh? ==> w.secret.value.grant == grant)
  }

  /** What a GitLab mint would present, if anything, is what the host would accept. */
  predicate InSync(w: World) {
    w.install.Some? && w.install.value.provider == GitLab && w.secret.Some? ==> Accepts(w.host, w.secret.value)
  }

  lemma StepKeepsInv(w: World, step: Step)
    requires Inv(w)
    ensures Inv(Next(w, step))
  {
  }

  lemma {:induction false} RunKeepsInv(w: World, steps: seq<Step>)
    requires Inv(w)
    ensures Inv(Run(w, steps))
    decreases |steps|
  {
    if steps != [] {
      StepKeepsInv(w, steps[0]);
      RunKeepsInv(Next(w, steps[0]), steps[1..]);
    }
  }

  /** Whatever happened before, a call serves a token of the recorded install's own consent or none; one from the cache has more than five minutes left and costs no exchange; and the install reads as working exactly when the call was served. */
  lemma ServedFromRecordedInstall(w: World, steps: seq<Step>, r: Request)
    requires Initial(w) && Run(w, steps).install.Some?
    ensures var at := Run(w, steps);
      var asked := Asked(at, r);
      && (asked.token.Some? ==> Fresh(at) || r.reply.Granted?)
      && (asked.token.Some? ==> asked.token.value.token == Access(at.install.value.grant))
      && (Fresh(at) ==> at.cache.value.expires > at.now + 300 && asked.token == at.cache && asked.world == at && asked.presented.None?)
      && (!Fresh(at) && asked.token.Some? ==> asked.token.value.expires == at.now + r.reply.lifetime)
      && (!Fresh(at) && at.install.value.provider == GitLab && asked.token.Some? ==> asked.presented == at.secret)
      && asked.world.install == Some(at.install.value.(working := asked.token.Some?))
      && asked.world.cache == asked.token
  {
    RunKeepsInv(w, steps);
  }

  /** No access token is ever stored, and a mint from a GitHub install stores nothing. */
  lemma NoAccessTokenIsStored(w: World, steps: seq<Step>, r: Request)
    requires Initial(w)
    ensures var at := Run(w, steps);
      && (at.secret.Some? ==> !at.secret.value.Access?)
      && (at.install.Some? ==>
            var asked := Asked(at, r);
            && (asked.written.Some? ==> asked.written.value.Refresh? && at.install.value.provider == GitLab)
            && asked.world.secret == if asked.written.Some? then asked.written else at.secret)
  {
    RunKeepsInv(w, steps);
  }

  // ----- presenting only the current refresh token -----

  /** A rotation whose new token never reaches the store: the answer was lost, or it could not be written. */
  predicate Drops(w: World, r: Request) {
    && !Fresh(w) && r.allowed && r.readable
    && w.install.Some? && w.install.value.provider == GitLab && w.secret.Some?
    && (r.reply == Lost(true) || (r.reply.Granted? && r.reply.refresh == Rotated && !r.writable))
  }

  /** Whether the stored token has fallen behind, reading the steps alone: a dropped rotation or a pasted credential puts it behind, and a new install, a disconnect or a removed credential ends that. */
  predicate Lapsed(w: World, steps: seq<Step>, before: bool)
    decreases |steps|
  {
    if steps == [] then before
    else Lapsed(Next(w, steps[0]), steps[1..], LapsedBy(w, steps[0], before))
  }

  predicate LapsedBy(w: World, step: Step, before: bool) {
    match step
    case Call(r) => before || Drops(w, r)
    case ConnectGitHub(_) => false
    case ConnectGitLab(consent) => consent != Stored && before
    case Disconnect => false
    case Paste(_) => w.install.Some? && w.install.value.provider == GitLab
    case ClearSecret => false
    case _ => before
  }

  lemma StepSync(w: World, step: Step)
    requires Inv(w)
    ensures InSync(Next(w, step)) <==> !LapsedBy(w, step, !InSync(w))
  {
  }

  lemma {:induction false} SyncOverRuns(w: World, steps: seq<Step>)
    requires Inv(w)
    ensures InSync(Run(w, steps)) <==> !Lapsed(w, steps, !InSync(w))
    decreases |steps|
  {
    if steps != [] {
      StepKeepsInv(w, steps[0]);
      StepSync(w, steps[0]);
      SyncOverRuns(Next(w, steps[0]), steps[1..]);
    }
  }

  /** Every refresh token presented is the host's current one, unless since the last install a rotation was dropped or a credential pasted: then it never is. */
  lemma PresentsCurrentUnlessLapsed(w: World, steps: seq<Step>, r: Request)
    requires Initial(w) && Run(w, steps).install.Some?
    requires Asked(Run(w, steps), r).presented.Some?
    ensures Accepts(Run(w, steps).host, Asked(Run(w, steps), r).presented.value) <==> !Lapsed(w, steps, false)
  {
    SyncOverRuns(w, steps);
  }

  /** A run in which every rotation is answered and stored, and nothing is pasted over an install. */
  predicate Undisturbed(steps: seq<Step>) {
    forall i :: 0 <= i < |steps| ==>
      match steps[i]
      case Call(r) => r.reply != Lost(true) && r.writable
      case Paste(_) => false
      case _ => true
  }

  lemma {:induction false} UndisturbedNeverLapses(w: World, steps: seq<Step>)
    requires Undisturbed(steps)
    ensures !Lapsed(w, steps, false)
    decreases |steps|
  {
    if steps != [] {
      assert forall i :: 0 <= i < |steps| - 1 ==> steps[1..][i] == steps[i + 1];
      UndisturbedNeverLapses(Next(w, steps[0]), steps[1..]);
    }
  }

  /** So over any run of calls, ticks, restarts, reconnects and disconnects whose answers arrive and whose writes succeed, only the current refresh token is ever presented. */
  lemma UndisturbedPresentsCurrent(w: World, steps: seq<Step>, r: Request)
    requires Initial(w) && Undisturbed(steps) && Run(w, steps).install.Some?
    requires Asked(Run(w, steps), r).presented.Some?
    ensures Accepts(Run(w, steps).host, Asked(Run(w, steps), r).presented.value)
  {
    UndisturbedNeverLapses(w, steps);
    PresentsCurrentUnlessLapsed(w, steps, r);
  }

  /** Steps that bring no new consent and no new secret. */
  predicate Retries(steps: seq<Step>) {
    forall i :: 0 <= i < |steps| ==> steps[i].Tick? || steps[i].Call? || steps[i].Restart?
  }

  /** Once behind and without a fresh cached token, no number of retries ever serves a token again: only a new install does. */
  lemma {:induction false} LapsedInstallNeedsReconnect(w: World, steps: seq<Step>, r: Request)
    requires Inv(w) && !InSync(w) && !Fresh(w) && Retries(steps)
    ensures Run(w, steps).install.Some? && Asked(Run(w, steps), r).token.None?
    ensures !Asked(Run(w, steps), r).world.install.value.working
    decreases |steps|
  {
    if steps != [] {
      var step, after := steps[0], Next(w, steps[0]);
      StepKeepsInv(w, step);
      StepSync(w, step);
      assert !Fresh(after);
      assert forall i :: 0 <= i < |steps| - 1 ==> steps[1..][i] == steps[i + 1];
      LapsedInstallNeedsReconnect(after, steps[1..], r);
    }
  }

  // ----- when a call is served, and what connecting and disconnecting leave -----

  /** Without a fresh cached token a call is served exactly when its address is allowed, the host grants, and: on GitHub, the install names an installation; on GitLab, the stored token can be read and is the host's current one, and a rotated one can be written. */
  lemma MintServedIff(w: World, r: Request)
    requires w.install.Some? && !Fresh(w)
    ensures Asked(w, r).token.Some? <==>
      && r.allowed && r.reply.Granted?
      && match w.install.value.provider
         case GitHub => w.install.value.installationId != ""
         case GitLab => r.readable && w.secret.Some? && Accepts(w.host, w.secret.value) && (r.reply.refresh == Rotated ==> r.writable)
         case Other => false
  {
  }

  /** A GitLab call that is served leaves the host's current refresh token stored, written anew exactly when it was rotated; one on GitHub leaves the store and the host's refresh tokens alone. */
  lemma ServedMintStoresCurrent(w: World, r: Request)
    requires w.install.Some? && !Fresh(w) && Asked(w, r).token.Some?
    ensures var m := Asked(w, r);
      && (w.install.value.provider == GitLab ==>
            && m.presented == w.secret && m.world.secret.Some? && Accepts(m.world.host, m.world.secret.value)
            && (m.written.Some? <==> r.reply.refresh == Rotated) && (m.written.Some? ==> m.written == m.world.secret && m.written != w.secret))
      && (w.install.value.provider == GitHub ==> m.presented.None? && m.written.None? && m.world.secret == w.secret && m.world.host == w.host)
  {
  }

  /** What may be stored from an exchange: on GitLab its refresh token, if it has one, and nothing else; from any other host nothing. */
  lemma PersistableIsRefresh(provider: Provider, tokens: OAuthTokens)
    ensures PersistableSecret(provider, tokens).Ok? <==> provider == GitLab && tokens.refresh.Some?
    ensures PersistableSecret(provider, tokens).Ok? ==> tokens.refresh == Some(PersistableSecret(provider, tokens).value)
  {
  }

  /** A completed install replaces the one before, starts out working, and drops the token minted from it; a GitLab one brings a refresh token the host accepts, a GitHub one names its installation and stores nothing. A consent that fails, or brings nothing to keep, leaves what was there. */
  lemma ConnectLeaves(w: World, consent: Consent, id: string)
    ensures var lab, hub := Next(w, ConnectGitLab(consent)), Next(w, ConnectGitHub(id));
      && (consent == Stored ==>
            && lab.cache.None? && lab.secret.Some? && Accepts(lab.host, lab.secret.value)
            && lab.install.Some? && lab.install.value.provider == GitLab && lab.install.value.working && lab.install.value.grant == lab.secret.value.grant)
      && (consent != Stored ==> lab.cache == w.cache && lab.secret == w.secret && lab.install == w.install)
      && hub.cache.None? && hub.secret == w.secret
      && hub.install.Some? && hub.install.value.provider == GitHub && hub.install.value.working && hub.install.value.installationId == id
  {
  }

  /** Steps that bring no install and no secret. */
  predicate BringsNothing(steps: seq<Step>) {
    forall i :: 0 <= i < |steps| ==> !steps[i].ConnectGitHub? && !steps[i].ConnectGitLab? && !steps[i].Paste?
  }

  /** After a disconnect nothing of the install is left, the stored refresh token and the cached token included, until somebody connects or pastes again. */
  lemma {:induction false} DisconnectForgets(w: World, steps: seq<Step>)
    requires w.install.Some? && BringsNothing(steps)
    ensures var after := Run(Next(w, Disconnect), steps); after.install.None? && after.secret.None? && after.cache.None?
  {
    StaysForgotten(Next(w, Disconnect), steps);
  }

  lemma {:induction false} StaysForgotten(w: World, steps: seq<Step>)
    requires w.install.None? && w.secret.None? && w.cache.None? && BringsNothing(steps)
    ensures var after := Run(w, steps); after.install.None? && after.secret.None? && after.cache.None?
    decreases |steps|
  {
    if steps != [] {
      assert forall i :: 0 <= i < |steps| - 1 ==> steps[1..][i] == steps[i + 1];
      StaysForgotten(Next(w, steps[0]), steps[1..]);
    }
  }

  // ----- the source, changing its surroundings in place -----

  class TokenSource {
    var now: int
    var cache: Option<Cached>
    var secret: Option<Token>
    var install: Option<Install>
    var host: Host

    constructor (now: int)
      ensures Initial(Content()) && Content().now == now
    {
      this.now, cache, secret, install, host := now, None, None, None, Host(0, map[]);
    }

    function Content(): World
      reads this
    {
      World(now, cache, secret, install, host)
    }

    /** The token for one provider call: the cached one while it is fresh, else a new one; a failure forgets the cache and degrades the install. */
    method GetToken(r: Request) returns (token: Result<Token, string>)
      requires install.Some?
      modifies this
      ensures Content() == Asked(old(Content()), r).world
      ensures match Asked(old(Content()), r).token
              case Some(minted) => token == Ok(minted.token)
              case None => token.Err?
    {
      if cache.Some? && cache.value.expires > now + RENEW_MARGIN {
        return Ok(cache.value.token);
      }
      var minted := MintToken(r);
      if minted.Err? {
        cache := None;
        install := Some(install.value.(working := false));
        return Err(minted.error);
      }
      cache := Some(minted.value);
      if !install.value.working {
        install := Some(install.value.(working := true));
      }
      token := Ok(minted.value.token);
    }

    method MintToken(r: Request) returns (minted: Result<Cached, string>)
      requires install.Some?
      modifies this`secret, this`host
      ensures var m := Mint(old(Content()), install.value, r);
        Content() == m.world && (match m.token case Some(t) => minted == Ok(t) case None => minted.Err?)
    {
      if !r.allowed {
        return Err("address refused");
      }
      if install.value.provider == GitHub {
        if install.value.installationId == "" {
          return Err("no installation id");
        }
        if !r.reply.Granted? {
          return Err("mint failed");
        }
        return Ok(Cached(Access(install.value.grant), now + r.reply.lifetime));
      }
      if install.value.provider == GitLab {
        if !r.readable || secret.None? {
          return Err("no refresh token is stored");
        }
        var stored := secret.value;
        var tokens := AskHost(stored, r.reply);
        if tokens.None? {
          return Err("refresh failed");
        }
        if tokens.value.refresh.Some? && tokens.value.refresh.value != stored {
          var keep := PersistableSecret(GitLab, tokens.value);
          if keep.Err? || !r.writable {
            return Err("could not store the rotated token");
          }
          secret := Some(keep.value);
        }
        return Ok(Cached(tokens.value.access, now + r.reply.lifetime));
      }
      minted := Err("no install flow");
    }

    /** The host's side of one refresh. */
    method AskHost(presented: Token, reply: Reply) returns (tokens: Option<OAuthTokens>)
      modifies this`host
      ensures (host, tokens) == Exchange(old(host), presented, reply)
      ensures tokens.Some? ==> reply.Granted?
    {
      var answer := Exchange(host, presented, reply);
      host, tokens := answer.0, answer.1;
    }

    /** Attach a completed install, dropping the token minted from the one it replaces; a GitLab one brings its refresh token, stored first. */
    method Connect(step: Step)
      requires step.ConnectGitHub? || step.ConnectGitLab?
      modifies this
      ensures Content() == Next(old(Content()), step)
    {
      if step == ConnectGitLab(Denied) {
        return;
      }
      var grant := host.grants;
      host := Host(grant + 1, host.current[grant := 0]);
      if step.ConnectGitHub? {
        cache := None;
        install := Some(Install(GitHub, step.installationId, grant, true));
        return;
      }
      var tokens := OAuthTokens(Access(grant), if step.consent == WithoutRefresh then None else Some(Refresh(grant, 0)));
      var keep := PersistableSecret(GitLab, tokens);
      if keep.Err? || step.consent == NotStored {
        return;
      }
      secret := Some(keep.value);
      cache := None;
      install := Some(Install(GitLab, "", grant, true));
    }

    /** Detach the install; its refresh token and cached token go with it. */
    method DeleteInstall() returns (existed: bool)
      modifies this
      ensures existed <==> old(install).Some?
      ensures Content() == Next(old(Content()), Disconnect)
    {
      cache := None;
      if install.None? {
        return false;
      }
      install := None;
      secret := None;
      existed := true;
    }
  }
}
