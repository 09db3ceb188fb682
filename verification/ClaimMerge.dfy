/** `VolumeClaimTemplates`: persistent volume claims merged by name. */
module ClaimMerge {
  import opened KeyedMerge
  import opened MergeLaws
  import opened StringUnion
  import opened PodModel

  /** `metadata` is what the merge never looks at. */
  datatype Claim = Claim(name: string, namespace: string, metadata: Blob, volumeMode: Option<Blob>,
                         storageClassName: Option<string>, accessModes: seq<string>, selector: Option<Blob>,
                         resources: Resources, dataSource: Option<Blob>)

  function ClaimName(c: Claim): string { c.name }

  function MergeClaim(original: Claim, override: Claim): Claim {
    original.(
      namespace := OrString(original.namespace, override.namespace),
      volumeMode := OrSome(original.volumeMode, override.volumeMode),
      storageClassName := OrSome(original.storageClassName, override.storageClassName),
      accessModes := Union(original.accessModes, override.accessModes),
      selector := OrSome(original.selector, override.selector),
      resources := MergeResources(original.resources, override.resources),
      dataSource := OrSome(original.dataSource, override.dataSource))
  }

  ghost function MergeClaims(original: seq<Claim>, override: seq<Claim>): seq<Claim> {
    MergeBy(original, override, ClaimName, MergeClaim)
  }

  method VolumeClaimTemplates(defaultTemplates: seq<Claim>, overrideTemplates: seq<Claim>) returns (merged: seq<Claim>)
    ensures merged == MergeClaims(defaultTemplates, overrideTemplates)
  {
    ClaimsKeepName(defaultTemplates, overrideTemplates);
    merged := MergeByKey(defaultTemplates, overrideTemplates, ClaimName, MergeClaim);
  }

  method PersistentVolumeClaim(defaultPvc: Claim, overridePvc: Claim) returns (merged: Claim)
    ensures merged == MergeClaim(defaultPvc, overridePvc)
  {
    merged := defaultPvc;
    if overridePvc.namespace != "" {
      merged := merged.(namespace := overridePvc.namespace);
    }
    if overridePvc.volumeMode.Some? {
      merged := merged.(volumeMode := overridePvc.volumeMode);
    }
    if overridePvc.storageClassName.Some? {
      merged := merged.(storageClassName := overridePvc.storageClassName);
    }
    var accessModes := StringSlices(merged.accessModes, overridePvc.accessModes);
    merged := merged.(accessModes := accessModes);
    if overridePvc.selector.Some? {
      merged := merged.(selector := overridePvc.selector);
    }
    merged := merged.(resources := MergeResources(merged.resources, overridePvc.resources));
    if overridePvc.dataSource.Some? {
      merged := merged.(dataSource := overridePvc.dataSource);
    }
  }

  lemma ClaimsKeepName(a: seq<Claim>, b: seq<Claim>)
    ensures KeepsKey(a, b, ClaimName, MergeClaim)
  {
    IndexSound(a, ClaimName);
    IndexSound(b, ClaimName);
  }

  lemma ClaimAssociative(x: Claim, y: Claim, z: Claim)
    ensures MergeClaim(MergeClaim(x, y), z) == MergeClaim(x, MergeClaim(y, z))
  {
    UnionAssociative(x.accessModes, y.accessModes, z.accessModes);
  }

  lemma ClaimsAssociative(a: seq<Claim>, b: seq<Claim>, c: seq<Claim>)
    ensures MergeClaims(MergeClaims(a, b), c) == MergeClaims(a, MergeClaims(b, c))
  {
    ClaimsKeepName(a, b);
    ClaimsKeepName(b, c);
    forall x, y, z
        ensures MergeClaim(MergeClaim(x, y), z) == MergeClaim(x, MergeClaim(y, z)) { ClaimAssociative(x, y, z); }
    MergeAssociative(a, b, c, ClaimName, MergeClaim);
  }

  /** A claim merged with itself is that claim. */
  lemma ClaimSettles(x: Claim, y: Claim)
    ensures MergeClaim(MergeClaim(x, y), y) == MergeClaim(x, y) && MergeClaim(y, y) == y
  {
    UnionIdempotent(x.accessModes, y.accessModes);
    UnionIdempotent(y.accessModes, y.accessModes);
  }

  /** Laying the same claims over the result once more changes nothing. */
  lemma ClaimsReapply(a: seq<Claim>, c: seq<Claim>)
    ensures MergeClaims(MergeClaims(a, c), c) == MergeClaims(a, c)
  {
    ClaimsKeepName(a, c);
    ClaimsKeepName(MergeClaims(a, c), c);
    forall x, y ensures MergeClaim(MergeClaim(x, y), y) == MergeClaim(x, y) { ClaimSettles(x, y); }
    forall y ensures MergeClaim(y, y) == y { ClaimSettles(y, y); }
    ReapplyIff(a, c, ClaimName, MergeClaim);
  }
}
