/** The layout of one archive, as the ordered pieces it is made of. */
module ZipPlan {
  import opened Bytes

  /** Central-directory evidence of one completed member. */
  datatype DirectoryEntry = DirectoryEntry(crc: bv32, offset: nat)

  datatype Plan = Plan(
    headers: seq<bytes>,
    payloads: seq<bytes>,
    descriptors: seq<bytes>,
    entries: seq<DirectoryEntry>,
    centrals: seq<bytes>,
    end: bytes)

  predicate WellFormed(p: Plan) {
    |p.headers| == |p.payloads| == |p.descriptors| == |p.entries| == |p.centrals|
  }

  ghost function Flatten(parts: seq<bytes>): bytes {
    if parts == [] then [] else Flatten(parts[..|parts| - 1]) + parts[|parts| - 1]
  }

  function LocalPart(p: Plan, i: nat): bytes
    requires WellFormed(p) && i < |p.payloads|
  {
    p.headers[i] + p.payloads[i] + p.descriptors[i]
  }

  function LocalParts(p: Plan): (r: seq<bytes>)
    requires WellFormed(p)
    ensures |r| == |p.payloads|
  {
    seq(|p.payloads|, i requires 0 <= i < |p.payloads| => LocalPart(p, i))
  }

  /** The first `k` local records. */
  ghost function LocalSection(p: Plan, k: nat): bytes
    requires WellFormed(p) && k <= |p.payloads|
  {
    Flatten(LocalParts(p)[..k])
  }

  /** The first `k` central-directory records. */
  ghost function CentralSection(p: Plan, k: nat): bytes
    requires WellFormed(p) && k <= |p.payloads|
  {
    Flatten(p.centrals[..k])
  }

  ghost function Body(p: Plan): bytes
    requires WellFormed(p)
  {
    LocalSection(p, |p.payloads|) + CentralSection(p, |p.payloads|)
  }

  ghost function Whole(p: Plan): bytes
    requires WellFormed(p)
  {
    Body(p) + p.end
  }

  lemma FlattenStep(parts: seq<bytes>, k: nat)
    requires k < |parts|
    ensures Flatten(parts[..k + 1]) == Flatten(parts[..k]) + parts[k]
  {
    assert parts[..k + 1][..k] == parts[..k];
  }

  lemma {:induction false} FlattenGrows(parts: seq<bytes>, j: nat, k: nat)
    requires j <= k <= |parts|
    ensures Flatten(parts[..j]) <= Flatten(parts[..k])
    decreases k
  {
    if j < k {
      FlattenGrows(parts, j, k - 1);
      FlattenStep(parts, k - 1);
    }
  }

  lemma LocalSectionStep(p: Plan, k: nat)
    requires WellFormed(p) && k < |p.payloads|
    ensures LocalSection(p, k + 1) == LocalSection(p, k) + LocalPart(p, k)
  {
    FlattenStep(LocalParts(p), k);
  }

  lemma CentralSectionStep(p: Plan, k: nat)
    requires WellFormed(p) && k < |p.payloads|
    ensures CentralSection(p, k + 1) == CentralSection(p, k) + p.centrals[k]
  {
    FlattenStep(p.centrals, k);
  }

  lemma LocalSectionGrows(p: Plan, j: nat, k: nat)
    requires WellFormed(p) && j <= k <= |p.payloads|
    ensures LocalSection(p, j) <= LocalSection(p, k)
  {
    FlattenGrows(LocalParts(p), j, k);
  }

  lemma CentralSectionGrows(p: Plan, j: nat, k: nat)
    requires WellFormed(p) && j <= k <= |p.payloads|
    ensures CentralSection(p, j) <= CentralSection(p, k)
  {
    FlattenGrows(p.centrals, j, k);
  }
}
