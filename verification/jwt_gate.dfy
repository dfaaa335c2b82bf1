/** The bearer-token interceptor: requires `Authorization: Bearer <token>`,
    verifies the token and attaches its claims to the request context. */
module JwtGate {
  import opened Common
  import opened Http
  import opened Response
  import Jwt

  const Prefix: string := "Bearer "

  /** JWT, with the token decoder and the verification instant as inputs. */
  function JWT(req: Request, decode: string -> Option<Jwt.Decoded>, now: int): (d: Decision)
    ensures var auth := Header(req, "Authorization");
      !HasPrefix(auth, Prefix) ==> d == Reply(Write(UnauthorizedAccess, WithMessage("missing token")))
    ensures var auth := Header(req, "Authorization");
      HasPrefix(auth, Prefix) && Jwt.Parse(auth[|Prefix|..], decode, now).Err? ==>
        d == Reply(Write(UnauthorizedAccess, WithMessage("invalid token")))
    ensures var auth := Header(req, "Authorization");
      d.Forward? <==> HasPrefix(auth, Prefix) && Jwt.Parse(auth[|Prefix|..], decode, now).Ok?
    ensures var auth := Header(req, "Authorization");
      d.Forward? ==> d.req == req.(ctx := req.ctx[UserContextKey :=
                                   ClaimsValue(Jwt.Parse(auth[|Prefix|..], decode, now).value)])
  {
    var auth := Header(req, "Authorization");
    if !HasPrefix(auth, Prefix) then Reply(Write(UnauthorizedAccess, WithMessage("missing token")))
    else
      var token := TrimPrefix(auth, Prefix);
      match Jwt.Parse(token, decode, now)
      case Err(_) => Reply(Write(UnauthorizedAccess, WithMessage("invalid token")))
      case Ok(claims) => Forward(req.(ctx := req.ctx[UserContextKey := ClaimsValue(claims)]))
  }

  /** The prefix is removed exactly once: `Bearer Bearer t` hands
      `Bearer t` to the verifier, and a lower-case `bearer` is refused. */
  lemma PrefixRemovedOnce(req: Request, decode: string -> Option<Jwt.Decoded>, now: int, t: string)
    ensures Header(req, "Authorization") == "Bearer Bearer " + t ==>
      JWT(req, decode, now).Forward? == Jwt.Parse("Bearer " + t, decode, now).Ok?
    ensures Header(req, "Authorization") == "bearer " + t ==>
      JWT(req, decode, now) == Reply(Write(UnauthorizedAccess, WithMessage("missing token")))
  {
    var auth := Header(req, "Authorization");
    if auth == "Bearer Bearer " + t {
      assert HasPrefix(auth, Prefix);
      assert auth[|Prefix|..] == "Bearer " + t;
    }
    if auth == "bearer " + t {
      assert auth[0] != Prefix[0];
    }
  }
}
