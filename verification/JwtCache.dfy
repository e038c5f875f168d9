/** The token cache of src/customer.c: what each critical section of `login_and_get_token` and the
    invalidation in `customer_service_get_info` do to it. */
module JwtCache {

  const TOKEN_SIZE: nat := 1024
  const BACKOFF_SECONDS: int := 5
  const DEFAULT_LIFETIME: int := 180

  /** `global_jwt_cache` and `jwt_is_refreshing`; the empty token is "no token". */
  datatype Cache = Cache(token: string, expiresAt: int, lastFailed: int, refreshing: bool)

  /** What a thread that holds the lock does next. */
  datatype Look = Hit(token: string) | Wait | Backoff | Lead

  datatype IdToken = Absent | Present(text: string)

  /** The login request failed, or answered 200 with a body: its `id_token`, and the expiry that
      `jwt_get_expiration` reads from it (not positive if there is none). */
  datatype Login = Failed | Response(idToken: IdToken, expiry: int)

  datatype Answer = NoToken | Token(text: string)

  function Decide(c: Cache, now: int): Look {
    if c.token != "" && now < c.expiresAt then Hit(c.token)
    else if c.refreshing then Wait
    else if now < c.lastFailed + BACKOFF_SECONDS then Backoff
    else Lead
  }

  function Enter(c: Cache, now: int): Cache {
    if Decide(c, now).Lead? then c.(refreshing := true) else c
  }

  /** Whether `update_jwt_cache` stores the token. */
  predicate Usable(login: Login) {
    login.Response? && login.idToken.Present? && 0 < |login.idToken.text| < TOKEN_SIZE
  }

  function Expiry(login: Login, now: int): int
    requires login.Response?
  {
    if login.expiry > 0 then login.expiry else now + DEFAULT_LIFETIME
  }

  function Complete(c: Cache, login: Login, now: int): Cache {
    match login
    case Failed => c.(lastFailed := now, refreshing := false)
    case Response(Absent, _) => c.(token := "", lastFailed := 0, refreshing := false)
    case Response(Present(text), _) =>
      if |text| >= TOKEN_SIZE then c.(token := "", lastFailed := 0, refreshing := false)
      else Cache(text, Expiry(login, now), 0, false)
  }

  function AnswerOf(c: Cache): Answer {
    if c.token == "" then NoToken else Token(c.token)
  }

  function Invalidate(c: Cache): Cache {
    c.(token := "")
  }

  /** `copy_token_safely` into a buffer of `room` bytes. */
  function Copied(room: nat, text: string): string {
    if room == 0 then "" else if |text| >= room then text[..room - 1] else text
  }

  /** The cache as the C code keeps it, changed only inside critical sections. */
  class Cell {
    var token: string
    var expiresAt: int
    var lastFailed: int
    var refreshing: bool

    ghost function View(): Cache
      reads this
    {
      Cache(token, expiresAt, lastFailed, refreshing)
    }

    constructor ()
      ensures View() == Cache("", 0, 0, false)
    {
      token, expiresAt, lastFailed, refreshing := "", 0, 0, false;
    }

    /** One iteration of the loop in `login_and_get_token`, with the clock reading it takes. */
    method LookUp(now: int, room: nat) returns (look: Look, out: string)
      modifies this`refreshing
      ensures look == Decide(old(View()), now) && View() == Enter(old(View()), now)
      ensures look.Hit? ==> look.token == token && token != "" && now < expiresAt
      ensures look.Lead? <==> !old(refreshing) && refreshing
      ensures look.Wait? ==> old(refreshing) && refreshing
      ensures look.Hit? <==> old(token) != "" && now < old(expiresAt)
      ensures look.Backoff? <==> !old(refreshing) && (token == "" || expiresAt <= now) && now < lastFailed + 5
      ensures look.Lead? <==> !old(refreshing) && (token == "" || expiresAt <= now) && lastFailed + 5 <= now
      ensures look.Hit? ==> out <= token && (room > 0 ==> |out| == if |token| < room then |token| else room - 1)
      ensures look.Hit? ==> out == Copied(room, look.token)
    {
      out := "";
      if token != "" && now < expiresAt {
        out := Copied(room, token);
        return Hit(token), out;
      }
      if refreshing {
        return Wait, out;
      }
      if now < lastFailed + BACKOFF_SECONDS {
        return Backoff, out;
      }
      refreshing := true;
      look := Lead;
    }

    /** The leader's second critical section. */
    method Finish(login: Login, now: int, room: nat) returns (success: bool, out: string)
      modifies this
      ensures View() == Complete(old(View()), login, now)
      ensures success <==> token != ""
      ensures success ==> out <= token && (room > 0 ==> |out| == if |token| < room then |token| else room - 1)
      ensures !refreshing
      ensures login.Failed? ==> token == old(token) && expiresAt == old(expiresAt) && lastFailed == now
      ensures login.Response? ==> lastFailed == 0
      ensures login.Response? && login.idToken.Present? && |login.idToken.text| < 1024 ==>
        token == login.idToken.text && expiresAt == if login.expiry > 0 then login.expiry else now + 180
      ensures login.Response? && (login.idToken.Absent? || |login.idToken.text| >= 1024) ==> token == "" && expiresAt == old(expiresAt)
    {
      if login.Response? {
        token := "";
        if login.idToken.Present? && |login.idToken.text| < TOKEN_SIZE {
          token := login.idToken.text;
          expiresAt := if login.expiry > 0 then login.expiry else now + DEFAULT_LIFETIME;
        }
        lastFailed := 0;
      } else {
        lastFailed := now;
      }
      refreshing := false;
      success, out := false, "";
      if token != "" {
        out := Copied(room, token);
        success := true;
      }
    }

    /** After a 401 from the remote service. */
    method Forget()
      modifies this`token
      ensures View() == Invalidate(old(View())) && token == ""
    {
      token := "";
    }
  }
}
