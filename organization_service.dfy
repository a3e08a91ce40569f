/**
 * The organization lifecycle service: lookup by id, create and update with
 * a unique name, and soft delete. Organizations are never removed, so the
 * users that reference one keep a valid reference.
 */
module OrganizationServices {
  import opened Wrappers
  import opened Text
  import opened Exceptions
  import opened Entities
  import opened Repository
  import opened Persistence

  function OrganizationNotFound(id: Id): Exception {
    NotFound("Organizasyon bulunamadı: " + IntToString(id))
  }

  function NameTaken(name: string): Exception {
    Business("Bu isimde organizasyon zaten var: " + name)
  }

  /** The exception `createOrganization` throws, if any. */
  function CreateOrganizationRejection(organizations: OrganizationTable, name: string): (r: Option<Exception>)
    ensures r.None? <==> !ExistsByName(organizations, name)
    ensures r.Some? ==> r == Some(NameTaken(name))
  {
    if ExistsByName(organizations, name) then Some(NameTaken(name)) else None
  }

  /** The check of `createOrganization` is exact: a new row passes it exactly when it keeps names unique. */
  lemma CreateOrganizationCheckExact(organizations: OrganizationTable, id: Id, o: Organization)
    requires UniqueNames(organizations)
    requires id !in organizations
    ensures CreateOrganizationRejection(organizations, o.name).None? <==> UniqueNames(organizations[id := o])
  {
    var after := organizations[id := o];
    if ExistsByName(organizations, o.name) {
      var k :| k in organizations && organizations[k].name == o.name;
      assert k != id && k in after && after[k].name == after[id].name;
    } else {
      InsertKeepsNamesUnique(organizations, id, o);
    }
  }

  /**
   * The exception `updateOrganization` throws, if any: the organization must
   * exist, and a changed name must be unused. Keeping the name passes.
   */
  function UpdateOrganizationRejection(organizations: OrganizationTable, id: Id, name: string): (r: Option<Exception>)
    ensures id !in organizations ==> r == Some(OrganizationNotFound(id))
    ensures id in organizations && name == organizations[id].name ==> r.None?
    ensures r.None? <==> id in organizations && (name == organizations[id].name || !ExistsByName(organizations, name))
    ensures r.Some? && id in organizations ==> r == Some(NameTaken(name))
  {
    if id !in organizations then Some(OrganizationNotFound(id))
    else if organizations[id].name != name && ExistsByName(organizations, name) then Some(NameTaken(name))
    else None
  }

  /** The check of `updateOrganization` is exact: a replacement row passes it exactly when it keeps names unique. */
  lemma UpdateOrganizationCheckExact(organizations: OrganizationTable, id: Id, o: Organization)
    requires UniqueNames(organizations)
    requires id in organizations
    ensures UpdateOrganizationRejection(organizations, id, o.name).None? <==> UniqueNames(organizations[id := o])
  {
    var after := organizations[id := o];
    if o.name != organizations[id].name && ExistsByName(organizations, o.name) {
      var k :| k in organizations && organizations[k].name == o.name;
      assert k != id && k in after && after[k].name == after[id].name;
    } else {
      ReplaceKeepsNamesUnique(organizations, id, o);
    }
  }

  class OrganizationService {
    const store: Store

    constructor (store: Store)
      ensures this.store == store
    {
      this.store := store;
    }

    /** `getOrganizationById`: throws NotFoundException exactly when no row has that id. */
    function GetOrganizationById(id: Id): (r: Result<Organization>)
      reads store
      ensures r.Ok? <==> id in store.organizations
      ensures r.Ok? ==> r.value == store.organizations[id]
      ensures r.Err? ==> r.error == OrganizationNotFound(id)
    {
      match FindById(store.organizations, id)
      case Some(o) => Ok(o)
      case None => Err(OrganizationNotFound(id))
    }

    method CreateOrganization(name: string, description: Option<string>, now: Instant) returns (r: Result<Organization>)
      requires store.Valid()
      modifies store
      ensures store.Valid()
      ensures r.Err? <==> CreateOrganizationRejection(old(store.organizations), name).Some?
      ensures r.Err? ==> Some(r.error) == CreateOrganizationRejection(old(store.organizations), name)
      ensures r.Err? ==> unchanged(store)
      ensures r.Ok? ==>
        && r.value.base.id !in old(store.organizations)
        && r.value == Organization(Audit(r.value.base.id, now, now, None), name, description, true)
        && store.organizations == old(store.organizations)[r.value.base.id := r.value]
      ensures store.users == old(store.users)
    {
      if ExistsByName(store.organizations, name) {
        return Err(NameTaken(name));
      }
      var organization := BuildOrganization(name, description, Some(true));
      var saved := store.InsertOrganization(organization, now);
      return Ok(saved);
    }

    /** `updateOrganization`: only the name and the description change. */
    method UpdateOrganization(id: Id, name: string, description: Option<string>, now: Instant) returns (r: Result<Organization>)
      requires store.Valid()
      modifies store
      ensures store.Valid()
      ensures r.Err? <==> UpdateOrganizationRejection(old(store.organizations), id, name).Some?
      ensures r.Err? ==> Some(r.error) == UpdateOrganizationRejection(old(store.organizations), id, name)
      ensures r.Err? ==> unchanged(store)
      ensures r.Ok? ==> id in old(store.organizations)
      ensures r.Ok? ==>
        var before := old(store.organizations)[id];
        && r.value == FlushedOrganization(before, before.(name := name, description := description), now)
        && store.organizations == old(store.organizations)[id := r.value]
      ensures r.Ok? && name == old(store.organizations)[id].name && description == old(store.organizations)[id].description ==>
        r.value == old(store.organizations)[id] && store.organizations == old(store.organizations)
      ensures store.users == old(store.users)
    {
      var found := GetOrganizationById(id);
      if found.Err? {
        return found;
      }
      var organization := found.value;
      if organization.name != name && ExistsByName(store.organizations, name) {
        return Err(NameTaken(name));
      }
      organization := organization.(name := name, description := description);
      var updated := store.SaveOrganization(organization, now);
      return Ok(updated);
    }

    /** `deleteOrganization`: a soft delete; the users that reference the organization are untouched. */
    method DeleteOrganization(id: Id, now: Instant) returns (r: Result<()>)
      requires store.Valid()
      modifies store
      ensures store.Valid()
      ensures r.Err? <==> id !in old(store.organizations)
      ensures r.Err? ==> r.error == OrganizationNotFound(id) && unchanged(store)
      ensures r.Ok? ==> id in old(store.organizations)
      ensures r.Ok? ==>
        var before := old(store.organizations)[id];
        store.organizations == old(store.organizations)[id := FlushedOrganization(before, before.(base := before.base.(deletedAt := Some(now))), now)]
      ensures r.Ok? ==> GetOrganizationById(id).Ok? && GetOrganizationById(id).value.base.deletedAt == Some(now)
      ensures store.users == old(store.users)
    {
      var found := GetOrganizationById(id);
      if found.Err? {
        return Err(found.error);
      }
      var organization := found.value;
      organization := organization.(base := organization.base.(deletedAt := Some(now)));
      var _ := store.SaveOrganization(organization, now);
      return Ok(());
    }
  }
}
