/** Which cached subscriptions an update triggers. */
module CacheMatch {
  import opened Text
  import opened ServicePath

  /** `isPattern` and `isTypePattern` hold after successful compilation of the regular expressions. */
  datatype EntityInfo = EntityInfo(entityId: string, entityType: string, isPattern: bool, isTypePattern: bool)

  /** The fields of a CachedSubscription that matching looks at; a NULL tenant is None. */
  datatype SubData = SubData(tenant: Option<string>, servicePath: string, subscriptionId: string,
                             notifyConditionV: seq<string>, entityIdInfos: seq<EntityInfo>)

  /** `regexec` says whether a pattern matches a text. */
  datatype Query = Query(multitenant: bool, tenant: Option<string>, servicePath: string, entityId: string,
                         entityType: string, regexec: (string, string) -> bool)

  predicate EntityMatch(e: EntityInfo, q: Query) {
    && (if e.isPattern then q.regexec(e.entityId, q.entityId) else q.entityId == e.entityId)
    && (if e.isTypePattern then q.regexec(e.entityType, q.entityType)
        else !(q.entityType != "" && e.entityType != "" && e.entityType != q.entityType))
  }

  function Normal(tenant: Option<string>): string {
    match tenant case None => "" case Some(t) => t
  }

  /** tenantMatch: NULL and the empty string are the same tenant. */
  predicate TenantMatch(tenant1: Option<string>, tenant2: Option<string>) {
    var t1, t2 := Normal(tenant1), Normal(tenant2);
    if |t1| != |t2| then false else t1 == t2
  }

  /** The cascade of tests at the head of subMatch; true when the subscription is filtered out. */
  predicate TenantFiltered(sub: Option<string>, tenant: Option<string>) {
    if sub.None? || tenant.None? || sub.value == "" || tenant.value == "" then
      (sub.Some? && sub.value != "") || (tenant.Some? && tenant.value != "")
    else sub.value != tenant.value
  }

  /** subMatch and subCacheItemLookup use different tests for the same notion of tenant. */
  lemma TenantTestsAgree(sub: Option<string>, tenant: Option<string>)
    ensures TenantFiltered(sub, tenant) <==> !TenantMatch(sub, tenant)
    ensures TenantMatch(sub, tenant) <==> TenantMatch(tenant, sub)
  {
  }

  ghost predicate AttributeMatches(s: SubData, attrV: seq<string>) {
    s.notifyConditionV == [] || exists a :: a in attrV && a in s.notifyConditionV
  }

  /** attributeMatch: the two nested loops. */
  method AttributeMatch(s: SubData, attrV: seq<string>) returns (r: bool)
    ensures r <==> AttributeMatches(s, attrV)
  {
    if |s.notifyConditionV| == 0 {
      return true;
    }
    for ncvIx := 0 to |s.notifyConditionV|
      invariant forall a :: a in attrV ==> a !in s.notifyConditionV[..ncvIx]
    {
      for aIx := 0 to |attrV|
        invariant s.notifyConditionV[ncvIx] !in attrV[..aIx]
      {
        if s.notifyConditionV[ncvIx] == attrV[aIx] {
          assert attrV[aIx] in attrV && attrV[aIx] in s.notifyConditionV;
          return true;
        }
      }
      assert attrV[..|attrV|] == attrV;
    }
    assert s.notifyConditionV[..|s.notifyConditionV|] == s.notifyConditionV;
    return false;
  }

  ghost predicate SubMatches(s: SubData, q: Query, attrV: seq<string>)
    requires ReadsInside(s.servicePath, q.servicePath)
  {
    && (q.multitenant ==> TenantMatch(s.tenant, q.tenant))
    && ServicePathMatch(s.servicePath, q.servicePath)
    && AttributeMatches(s, attrV)
    && exists e :: e in s.entityIdInfos && EntityMatch(e, q)
  }

  /** subMatch */
  method SubMatch(s: SubData, q: Query, attrV: seq<string>) returns (r: bool)
    requires ReadsInside(s.servicePath, q.servicePath)
    ensures r <==> SubMatches(s, q, attrV)
  {
    hide EntityMatch, AttributeMatches, ServicePathMatch;
    TenantTestsAgree(s.tenant, q.tenant);
    if q.multitenant && TenantFiltered(s.tenant, q.tenant) {
      return false;
    }
    if !ServicePathMatch(s.servicePath, q.servicePath) {
      return false;
    }
    var attrs := AttributeMatch(s, attrV);
    if !attrs {
      return false;
    }
    for ix := 0 to |s.entityIdInfos|
      invariant forall e :: e in s.entityIdInfos[..ix] ==> !EntityMatch(e, q)
    {
      if EntityMatch(s.entityIdInfos[ix], q) {
        assert s.entityIdInfos[ix] in s.entityIdInfos;
        return true;
      }
    }
    assert s.entityIdInfos[..|s.entityIdInfos|] == s.entityIdInfos;
    return false;
  }

  /** The selection over the fields: a literal id stands for itself, a pattern is applied to the entity's id or type, an
      empty type on either side fits any, and a NULL tenant is the empty one. */
  lemma SelectedIff(s: SubData, q: Query, attrV: seq<string>)
    requires ReadsInside(s.servicePath, q.servicePath)
    ensures SubMatches(s, q, attrV) <==>
      && (q.multitenant ==>
            if s.tenant == None || s.tenant == Some("") then q.tenant == None || q.tenant == Some("") else q.tenant == s.tenant)
      && ServicePathMatch(s.servicePath, q.servicePath)
      && (s.notifyConditionV == [] || exists a :: a in attrV && a in s.notifyConditionV)
      && exists ix :: 0 <= ix < |s.entityIdInfos| &&
           var e := s.entityIdInfos[ix];
           && (if e.isPattern then q.regexec(e.entityId, q.entityId) else e.entityId == q.entityId)
           && (if e.isTypePattern then q.regexec(e.entityType, q.entityType)
               else e.entityType == "" || q.entityType == "" || e.entityType == q.entityType)
  {
    hide ServicePathMatch;
    assert SubMatches(s, q, attrV) ==> exists ix :: 0 <= ix < |s.entityIdInfos| && EntityMatch(s.entityIdInfos[ix], q);
    assert forall ix :: 0 <= ix < |s.entityIdInfos| ==> s.entityIdInfos[ix] in s.entityIdInfos;
  }

  /** For a non-empty attribute list a subscription matches exactly when it matches for one of the attributes
      alone, so matching the list is the union of the single-attribute matches. */
  lemma MatchIsUnion(s: SubData, q: Query, attrV: seq<string>)
    requires ReadsInside(s.servicePath, q.servicePath) && attrV != []
    ensures SubMatches(s, q, attrV) <==> exists a :: a in attrV && SubMatches(s, q, [a])
  {
    hide EntityMatch, ServicePathMatch, TenantMatch;
    if SubMatches(s, q, attrV) {
      var a := WitnessAttribute(s, attrV);
      assert a in attrV && SubMatches(s, q, [a]);
    }
    if a :| a in attrV && SubMatches(s, q, [a]) {
      assert AttributeMatches(s, attrV);
    }
  }

  lemma WitnessAttribute(s: SubData, attrV: seq<string>) returns (a: string)
    requires attrV != [] && AttributeMatches(s, attrV)
    ensures a in attrV && AttributeMatches(s, [a])
  {
    if s.notifyConditionV == [] {
      a := attrV[0];
    } else {
      a :| a in attrV && a in s.notifyConditionV;
      assert a in [a];
    }
  }

  /** The empty list is different: it selects the subscriptions to any change only. */
  lemma NoAttributes(s: SubData, q: Query)
    requires ReadsInside(s.servicePath, q.servicePath) && SubMatches(s, q, [])
    ensures s.notifyConditionV == []
  {
  }
}
