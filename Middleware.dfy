/** The request guard in front of the admin API: a path that starts with one of the
    protected prefixes passes only with an `admin_token` cookie that the token library
    accepts under the configured secret; every other path passes untouched. The
    token check itself (`jwt.verify`) is an oracle given as a parameter. */
module Middleware {
  import opened Base

  const ProfilePrefix: string := "/api/admin/profile"
  const ProductsPrefix: string := "/api/admin/produtos"
  const ProtectedRoutes: seq<string> := [ProfilePrefix, ProductsPrefix]

  const TokenMissing: string := "Token não encontrado"
  const TokenInvalid: string := "Token inválido ou expirado"

  datatype Decision =
    | Next
    | Unauthorized(status: int, error: string)

  /** `String.prototype.startsWith`. */
  predicate StartsWith(s: string, prefix: string)
  {
    |prefix| <= |s| && s[..|prefix|] == prefix
  }

  /** `routes.some(route => path.startsWith(route))`. */
  predicate AnyPrefix(routes: seq<string>, path: string)
  {
    routes != [] && (StartsWith(path, routes[0]) || AnyPrefix(routes[1..], path))
  }

  predicate IsProtected(path: string)
  {
    AnyPrefix(ProtectedRoutes, path)
  }

  /** `some` holds exactly when one of the routes is a prefix of the path. */
  lemma {:induction false} AnyPrefixMeaning(routes: seq<string>, path: string)
    ensures AnyPrefix(routes, path) <==> exists r :: r in routes && StartsWith(path, r)
  {
    if routes != [] {
      AnyPrefixMeaning(routes[1..], path);
      assert routes == [routes[0]] + routes[1..];
    }
  }

  /** A path is protected exactly when it starts with one of the two prefixes. */
  lemma ProtectedIff(path: string)
    ensures IsProtected(path) <==> StartsWith(path, ProfilePrefix) || StartsWith(path, ProductsPrefix)
  {
    AnyPrefixMeaning(ProtectedRoutes, path);
  }

  /** The match is on raw text, not on path segments: the English product route is
      not guarded, while any path that merely begins with the profile prefix is. */
  lemma RawPrefixMatch()
    ensures !IsProtected("/api/admin/products")
    ensures IsProtected("/api/admin/profileX")
    ensures IsProtected("/api/admin/produtos/42/editar")
  {
    ProtectedIff("/api/admin/products");
    assert "/api/admin/products"[..|ProfilePrefix|] != ProfilePrefix by {
      assert "/api/admin/products"[14] != ProfilePrefix[14];
    }
    assert "/api/admin/products"[..|ProductsPrefix|] != ProductsPrefix by {
      assert "/api/admin/products"[17] != ProductsPrefix[17];
    }
    assert "/api/admin/profileX"[..|ProfilePrefix|] == ProfilePrefix;
    assert "/api/admin/produtos/42/editar"[..|ProfilePrefix|] != ProfilePrefix by {
      assert "/api/admin/produtos/42/editar"[15] != ProfilePrefix[15];
    }
    assert "/api/admin/produtos/42/editar"[..|ProductsPrefix|] == ProductsPrefix;
  }

  /** The guard. `token` is the cookie's value, `secret` the configured `JWT_SECRET`
      (`None` when unset), `verify` whether the token library accepts the token.
      A request passes exactly when its path is not protected or it carries a token
      that verifies under a configured secret; every refusal is a 401, telling a
      missing token apart from one that cannot be verified. */
  function Guard(path: string, token: Option<string>, secret: Option<string>,
                 verify: (string, string) -> bool): (d: Decision)
    ensures d == Next <==>
      !IsProtected(path) || (Given(token) && Given(secret) && verify(token.value, secret.value))
    ensures d.Unauthorized? ==> d.status == 401
    ensures IsProtected(path) && !Given(token) ==> d == Unauthorized(401, TokenMissing)
    ensures IsProtected(path) && Given(token) && !Given(secret) ==> d == Unauthorized(401, TokenInvalid)
  {
    if !IsProtected(path) then Next
    else if !Given(token) then Unauthorized(401, TokenMissing)
    else if !Given(secret) then Unauthorized(401, TokenInvalid)
    else if !verify(token.value, secret.value) then Unauthorized(401, TokenInvalid)
    else Next
  }

  /** Which decision an unprotected path gets does not depend on cookie, secret or
      token library. */
  lemma UnprotectedPassesThrough(path: string, token: Option<string>, secret: Option<string>,
                                 verify: (string, string) -> bool)
    requires !StartsWith(path, ProfilePrefix) && !StartsWith(path, ProductsPrefix)
    ensures Guard(path, token, secret, verify) == Next
  {
    ProtectedIff(path);
  }
}
