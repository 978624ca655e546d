/** The records the registry's list endpoint returns, with the integer widths
    of the Rust code written out. */
module Api {

  const U32_MAX: nat := 0xFFFF_FFFF

  /** Rust `u32`: the page counter of the pagination loop. */
  type U32 = n: nat | n <= U32_MAX

  /** Rust `u64`: a registry-assigned version id. */
  type U64 = n: nat | n < 0x1_0000_0000_0000_0000

  datatype ContainerVersionMetadata = ContainerVersionMetadata(tags: seq<string>)

  datatype PackageVersionMetadata =
    PackageVersionMetadata(packageType: string, container: ContainerVersionMetadata)

  /** One stored version: its id, its digest name and its tags. */
  datatype PackageVersion =
    PackageVersion(id: U64, name: string, metadata: PackageVersionMetadata)

  /** A version is a deletion candidate exactly when it carries no tag. */
  predicate IsUntagged(v: PackageVersion) {
    |v.metadata.container.tags| == 0
  }
}
