/**
 * The shop services of src/app/modules/shop/shop.service.ts: opening a shop,
 * its owner's update, and an owner's lookup of their shop.
 *
 * A shop request is a partial shop (`ShopData`): a field that is `None` was not
 * supplied. An uploaded logo file, when present, replaces the requested logo.
 */
module ShopService {
  import opened Wrappers
  import opened Domain
  import opened Database

  /** The request as the service passes it on: an uploaded logo's path replaces the requested logo. */
  function WithLogo(data: ShopData, upload: Option<string>): (r: ShopData)
    ensures upload.Some? ==> r.logo == upload
    ensures upload.None? ==> r == data
    ensures r == data.(logo := r.logo)
  {
    if upload.Some? then data.(logo := upload) else data
  }

  /** A new shop from a request, owned by the requesting user whatever owner the request names. */
  function Opened(data: ShopData, owner: Id): (r: Shop)
    ensures r.owner == owner
  {
    Shop(owner, data.name, data.logo, data.isActive)
  }

  /** The shop `createShop` stores belongs to the requester and shows the uploaded logo whenever a file is sent. */
  lemma OpenedTakesUpload(data: ShopData, upload: Option<string>, owner: Id)
    ensures Opened(WithLogo(data, upload), owner).owner == owner
    ensures upload.Some? ==> Opened(WithLogo(data, upload), owner).logo == upload
    ensures upload.None? ==> Opened(WithLogo(data, upload), owner).logo == data.logo
  {
  }

  /** The `$set` of a request on a shop: every supplied field, the owner included, replaces the stored one. */
  function Patched(s: Shop, data: ShopData): Shop {
    Shop(data.owner.GetOr(s.owner), data.name.Or(s.name), data.logo.Or(s.logo), data.isActive.Or(s.isActive))
  }

  /** Only supplied fields change; each supplied field takes the supplied value. */
  lemma PatchSetsOnlySupplied(s: Shop, data: ShopData)
    ensures var r := Patched(s, data);
      && (r.owner == if data.owner.Some? then data.owner.value else s.owner)
      && (r.name == if data.name.Some? then data.name else s.name)
      && (r.logo == if data.logo.Some? then data.logo else s.logo)
      && (r.isActive == if data.isActive.Some? then data.isActive else s.isActive)
  {
  }

  /** An empty request changes nothing, and sending the same request twice is the same as sending it once. */
  lemma PatchIdempotent(s: Shop, data: ShopData)
    ensures Patched(s, ShopData(None, None, None, None)) == s
    ensures Patched(Patched(s, data), data) == Patched(s, data)
  {
  }

  /**
   * `createShop`, in one transaction: the user must exist and be active; the
   * shop is created for that user and the user's `hasShop` is set. A refusal
   * changes nothing.
   */
  method CreateShop(db: Store, data: ShopData, upload: Option<string>, user: Id) returns (r: Result<Id, Error>)
    requires db.Valid()
    modifies db
    ensures db.Valid()
    ensures user !in old(db.users) ==> r == Err(UserNotFound)
    ensures user in old(db.users) && !old(db.users)[user].isActive ==> r == Err(UserInactive)
    ensures r.Ok? <==> user in old(db.users) && old(db.users)[user].isActive
    ensures r.Err? ==> db.Snapshot() == old(db.Snapshot())
    ensures r.Ok? ==>
      && r.value == old(db.nextId)
      && db.Snapshot() == old(db.Snapshot()).(
           shops := old(db.shops)[r.value := Opened(WithLogo(data, upload), user)],
           users := old(db.users)[user := old(db.users)[user].(hasShop := true)],
           nextId := r.value + 1)
  {
    if user !in db.users {
      return Err(UserNotFound);
    }
    if !db.users[user].isActive {
      return Err(UserInactive);
    }
    var shopId := db.NewId();
    db.shops := db.shops[shopId := Opened(WithLogo(data, upload), user)];
    db.users := db.users[user := db.users[user].(hasShop := true)];
    r := Ok(shopId);
  }

  /**
   * `updateShop`: only the shop's owner may update it; the supplied fields
   * are set and the updated shop is returned. A refusal changes nothing.
   */
  method UpdateShop(db: Store, shopId: Id, data: ShopData, upload: Option<string>, user: Id) returns (r: Result<Shop, Error>)
    requires db.Valid()
    modifies db
    ensures db.Valid()
    ensures shopId !in old(db.shops) ==> r == Err(ShopNotFound)
    ensures shopId in old(db.shops) && old(db.shops)[shopId].owner != user ==> r == Err(Forbidden)
    ensures r.Ok? <==> shopId in old(db.shops) && old(db.shops)[shopId].owner == user
    ensures r.Err? ==> db.Snapshot() == old(db.Snapshot())
    ensures r.Ok? ==>
      && r.value == Patched(old(db.shops)[shopId], WithLogo(data, upload))
      && db.Snapshot() == old(db.Snapshot()).(shops := old(db.shops)[shopId := r.value])
  {
    if shopId !in db.shops {
      return Err(ShopNotFound);
    }
    if db.shops[shopId].owner != user {
      return Err(Forbidden);
    }
    var updated := Patched(db.shops[shopId], WithLogo(data, upload));
    db.shops := db.shops[shopId := updated];
    r := Ok(updated);
  }

  /**
   * `getMyShop`: the user must exist and have `hasShop`; then some shop the
   * user owns, or nothing when the flag is set but no shop is found.
   */
  method MyShop(users: map<Id, User>, shops: map<Id, Shop>, user: Id) returns (r: Result<Option<Shop>, Error>)
    ensures r == Err(UserNotFound) <==> user !in users
    ensures r == Err(NoShop) <==> user in users && !users[user].hasShop
    ensures r.Err? ==> r.error == UserNotFound || r.error == NoShop
    ensures r.Ok? && r.value.Some? ==> r.value.value in shops.Values && r.value.value.owner == user
    ensures r.Ok? && r.value.None? ==> forall id :: id in shops ==> shops[id].owner != user
  {
    if user !in users {
      return Err(UserNotFound);
    }
    if !users[user].hasShop {
      return Err(NoShop);
    }
    if exists id :: id in shops && shops[id].owner == user {
      var id :| id in shops && shops[id].owner == user;
      r := Ok(Some(shops[id]));
    } else {
      r := Ok(None);
    }
  }
}
