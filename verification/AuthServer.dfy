/**
 The token handlers of the hub (hub/internal/server/middleware.go and handlers_auth.go) on the stored users
 and the revocation list object, proved against TokenModel.
 */
module AuthServer {
  import BlacklistModel
  import opened TokenModel
  import TB = TokenBlacklist

  class AuthServer {
    var users: map<string, nat>            // user to token generation, as stored
    const blacklist: TB.TokenBlacklist
    ghost var world: World                 // with every token the hub has signed

    ghost predicate Valid()
      reads this, blacklist
    {
      users == world.users && blacklist.State() == BlacklistModel.After(world.revocations)
    }

    /** The hub's first start, on an empty database. */
    constructor (epoch: int)
      ensures Valid() && fresh(blacklist) && world == TokenModel.After(Begin(epoch))
    {
      users := map[];
      blacklist := new TB.TokenBlacklist(map[], epoch);
      world := TokenModel.After(Begin(epoch));
    }

    /** A signature is valid when the hub signed exactly these claims. */
    ghost predicate HubSigned(t: Token)
      reads this
    {
      t.jti in world.issued && world.issued[t.jti] == t
    }

    /** The decision about a request's token; looking it up in the list is all that happens. */
    method AuthenticateRequestToken(t: Token, signatureOk: bool, now: int) returns (ok: bool)
      requires Valid() && signatureOk == HubSigned(t)
      modifies this, blacklist
      ensures Valid() && ok == Accepts(old(world), t, now)
      ensures world == old(world) || world == Step(old(world), OnList(BlacklistModel.Lookup(t.jti)), now)
    {
      if !signatureOk || now >= t.expiry {
        return false;
      }
      var revoked := blacklist.IsBlacklisted(t.jti, now);
      world := Step(world, OnList(BlacklistModel.Lookup(t.jti)), now);
      if revoked {
        return false;
      }
      if t.kind.Access? {
        if t.user !in users || users[t.user] != t.gen {
          return false;
        }
      }
      ok := true;
    }

    method IncrementTokenGeneration(user: string) returns (found: bool, gen: nat)
      requires Valid()
      modifies this
      ensures Valid() && world == Bump(old(world), user)
      ensures found == (user in old(users)) && (found ==> gen == old(users)[user] + 1 == users[user])
    {
      if user !in users {
        return false, 0;
      }
      users := users[user := users[user] + 1];
      world := Bump(world, user);
      found, gen := true, users[user];
    }

    /** GenerateTokenPair; the pair carries the generation it is given. */
    method GenerateTokenPair(user: string, gen: nat, accessID: string, refreshID: string, now: int)
      returns (access: Token, refresh: Token)
      requires Valid()
      modifies this`world
      ensures Valid() && world == old(world).(issued := Pair(old(world).issued, user, gen, accessID, refreshID, now))
      ensures access == Token(accessID, user, Access, gen, Expiry(now, Access))
      ensures refresh == Token(refreshID, user, Refresh, gen, Expiry(now, Refresh))
    {
      access := Token(accessID, user, Access, gen, Expiry(now, Access));
      refresh := Token(refreshID, user, Refresh, gen, Expiry(now, Refresh));
      world := world.(issued := Pair(world.issued, user, gen, accessID, refreshID, now));
    }

    /** A refused refresh changes nothing; an accepted one rotates the generation and issues the new pair with it. */
    method HandleRefresh(t: Token, signatureOk: bool, accessID: string, refreshID: string, now: int) returns (ok: bool)
      requires Valid() && signatureOk == HubSigned(t)
      modifies this
      ensures Valid() && ok == AcceptsRefresh(old(world), t, now)
      ensures world == Step(old(world), DoRefresh(t, accessID, refreshID), now)
    {
      if !signatureOk || now >= t.expiry || !t.kind.Refresh? {
        return false;
      }
      if t.user !in users || users[t.user] != t.gen {
        return false;
      }
      var found, gen := IncrementTokenGeneration(t.user);
      var access, refresh := GenerateTokenPair(t.user, gen, accessID, refreshID, now);
      ok := true;
    }

    /** Only a token that is still valid is worth revoking. */
    method HandleLogout(t: Token, signatureOk: bool, now: int)
      requires Valid() && signatureOk == HubSigned(t)
      modifies this, blacklist
      ensures Valid() && world == Step(old(world), Logout(t), now)
    {
      if signatureOk && now < t.expiry {
        blacklist.Add(t.jti, t.expiry, now);
        world := Step(world, Logout(t), now);
      }
    }
  }
}
