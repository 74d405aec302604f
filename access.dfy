/** The authorization middleware (`isAuthenticated`, `isAdmin`, `isManager`, `canManageProduct`,
    `canManageEvent`) as decisions over the users, products and events tables. The caller's
    identity is the `user.id` of the request body; the empty string stands for a missing id. */
module Access {
  import opened Tables

  function IsAuthenticated(users: map<Id, UserRow>, callerId: Id): (o: Outcome)
    ensures o.Pass? <==> callerId != "" && callerId in users
    ensures o.Fail? ==> o.error == Unauthorized
  {
    if callerId == "" || callerId !in users then Fail(Unauthorized) else Pass
  }

  /** An unknown caller id is answered 403 here, not 401: the lookup result is only tested for role. */
  function IsAdmin(users: map<Id, UserRow>, callerId: Id): (o: Outcome)
    ensures o.Pass? <==> callerId != "" && callerId in users && users[callerId].role == AdminRole
    ensures o.Fail? ==> o.error == (if callerId == "" then Unauthorized else Forbidden)
  {
    if callerId == "" then Fail(Unauthorized)
    else if callerId in users && users[callerId].role == AdminRole then Pass
    else Fail(Forbidden)
  }

  function IsManager(users: map<Id, UserRow>, callerId: Id): (o: Outcome)
    ensures o.Pass? <==> callerId != "" && callerId in users && (users[callerId].role == AdminRole || users[callerId].role == ManagerRole)
    ensures o.Fail? ==> o.error == (if callerId == "" then Unauthorized else Forbidden)
  {
    if callerId == "" then Fail(Unauthorized)
    else if callerId in users && (users[callerId].role == AdminRole || users[callerId].role == ManagerRole) then Pass
    else Fail(Forbidden)
  }

  /** The product is looked up before the caller, so a missing product answers 404 even for an unknown caller. */
  function CanManageProduct(users: map<Id, UserRow>, products: map<Id, Product>, callerId: Id, productId: Id): (o: Outcome)
    ensures o.Pass? <==> && callerId != "" && productId in products && callerId in users
                         && (users[callerId].role == AdminRole || products[productId].sellerId == callerId)
    ensures o.Fail? ==> o.error == (if callerId == "" then Unauthorized
                                    else if productId !in products then NotFound
                                    else if callerId !in users then Unauthorized
                                    else Forbidden)
  {
    if callerId == "" then Fail(Unauthorized)
    else if productId !in products then Fail(NotFound)
    else if callerId !in users then Fail(Unauthorized)
    else if users[callerId].role == AdminRole || products[productId].sellerId == callerId then Pass
    else Fail(Forbidden)
  }

  function CanManageEvent(users: map<Id, UserRow>, events: map<Id, Event>, callerId: Id, eventId: Id): (o: Outcome)
    ensures o.Pass? <==> && callerId != "" && eventId in events && callerId in users
                         && (users[callerId].role == AdminRole || events[eventId].organizerId == callerId)
    ensures o.Fail? ==> o.error == (if callerId == "" then Unauthorized
                                    else if eventId !in events then NotFound
                                    else if callerId !in users then Unauthorized
                                    else Forbidden)
  {
    if callerId == "" then Fail(Unauthorized)
    else if eventId !in events then Fail(NotFound)
    else if callerId !in users then Fail(Unauthorized)
    else if users[callerId].role == AdminRole || events[eventId].organizerId == callerId then Pass
    else Fail(Forbidden)
  }

  /** The roles nest: whoever passes `isAdmin` passes `isManager`, `isAuthenticated`, and may manage
      every existing product and event. */
  lemma AdminPassesEveryCheck(users: map<Id, UserRow>, products: map<Id, Product>, events: map<Id, Event>, callerId: Id)
    requires IsAdmin(users, callerId).Pass?
    ensures IsManager(users, callerId).Pass? && IsAuthenticated(users, callerId).Pass?
    ensures forall pid :: pid in products ==> CanManageProduct(users, products, callerId, pid).Pass?
    ensures forall eid :: eid in events ==> CanManageEvent(users, events, callerId, eid).Pass?
  {
  }

  /** Whoever may manage a product is an authenticated user. */
  lemma ManagerOfProductIsAuthenticated(users: map<Id, UserRow>, products: map<Id, Product>, callerId: Id, productId: Id)
    requires CanManageProduct(users, products, callerId, productId).Pass?
    ensures IsAuthenticated(users, callerId).Pass?
  {
  }
}
