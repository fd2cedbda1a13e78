/** The bearer token of a collection: found when it is uploaded (server.js, the scan in
    the upload route) and rewritten by the update-token route. */
module Tokens {
  import opened Documents

  /** Reference definition of the initial token: the declared token of the last request
      that has `request.auth.bearer`, "" when that token is missing or empty, and ""
      when no request declares bearer auth. */
  function LastBearerToken(items: seq<FlatItem>): string
  {
    if |items| == 0 then ""
    else if HasBearer(items[|items| - 1]) then BearerToken(items[|items| - 1])
    else LastBearerToken(items[..|items| - 1])
  }

  /** Last wins: the token comes from the last request declaring bearer auth, even when
      an earlier one carries a non-empty token; it is "" when none declares it. */
  lemma {:induction false} LastBearerTokenWins(items: seq<FlatItem>)
    ensures (forall i :: 0 <= i < |items| ==> !HasBearer(items[i])) ==> LastBearerToken(items) == ""
    ensures forall j :: 0 <= j < |items| && HasBearer(items[j]) &&
                        (forall i :: j < i < |items| ==> !HasBearer(items[i])) ==>
                          LastBearerToken(items) == BearerToken(items[j])
  {
    if |items| > 0 {
      var n := |items| - 1;
      LastBearerTokenWins(items[..n]);
      assert forall i :: 0 <= i < n ==> items[..n][i] == items[i];
    }
  }

  /** The scan the upload route runs over a flattened list: a variable that every
      request declaring bearer auth overwrites. */
  method InitialToken(items: seq<FlatItem>) returns (token: string)
    ensures token == LastBearerToken(items)
  {
    token := "";
    var i := 0;
    while i < |items|
      invariant 0 <= i <= |items|
      invariant token == LastBearerToken(items[..i])
    {
      assert items[..i + 1][..i] == items[..i];
      if HasBearer(items[i]) {
        token := BearerToken(items[i]);
      }
      i := i + 1;
    }
    assert items[..i] == items;
  }

  /** One request after the update-token route has passed over it: if it declares
      bearer auth, its bearer token becomes `token`; nothing else changes, and a request
      without bearer auth is left exactly as it was. */
  function Retoken(item: FlatItem, token: string): (r: FlatItem)
    ensures HasBearer(r) == HasBearer(item)
    ensures !HasBearer(item) ==> r == item
    ensures HasBearer(item) ==> BearerToken(r) == token && r.request.value.auth.value.bearer.value.token == Some(token)
    ensures r.name == item.name && r.fullPath == item.fullPath && r.globalId == item.globalId
    ensures item.request.Some? ==>
              (r.request.Some? && r.request.value.(auth := None) == item.request.value.(auth := None))
  {
    if HasBearer(item) then
      var request := item.request.value;
      var auth := request.auth.value;
      var bearer := auth.bearer.value.(token := Some(token));
      item.(request := Some(request.(auth := Some(auth.(bearer := Some(bearer))))))
    else item
  }

  /** The update-token route's pass over a collection's flattened list. */
  method RetokenItems(items: seq<FlatItem>, token: string) returns (updated: seq<FlatItem>)
    ensures |updated| == |items|
    ensures forall i :: 0 <= i < |items| ==> updated[i] == Retoken(items[i], token)
  {
    updated := [];
    var i := 0;
    while i < |items|
      invariant 0 <= i <= |items|
      invariant |updated| == i
      invariant forall j :: 0 <= j < i ==> updated[j] == Retoken(items[j], token)
    {
      updated := updated + [Retoken(items[i], token)];
      i := i + 1;
    }
  }
}
