/**
 * Event domains (src/core/event_bus.cpp): a block of `size` SDL user event
 * types starting at `identity`, with `uint32_t` conversions between raw event
 * types and offsets within the block. All arithmetic wraps modulo 2^32.
 */
module Events {
  import opened CppInt

  /** `EventBus::Domain`: built from its identity and size, never changed. */
  datatype Domain = Domain(myIdentity: Uint32, mySize: Uint32)
  {
    /** `identity()`. */
    function Identity(): (id: Uint32)
      ensures Domain(id, mySize) == this
    {
      myIdentity
    }

    /** `size()`. */
    function Size(): (n: Uint32)
      ensures Domain(myIdentity, n) == this
    {
      mySize
    }

    /** `rawToDomain`: the unsigned difference `raw - identity`. */
    function RawToDomain(raw: Uint32): (d: Uint32)
      ensures (myIdentity + d) % UINT32_LIMIT == raw
      ensures raw >= myIdentity ==> d == raw - myIdentity
    {
      (raw - myIdentity) % UINT32_LIMIT
    }

    /**
     * `domainToRaw`: the domain event converted to `uint32_t` (modulo 2^32),
     * added to the identity with wrap-around.
     */
    function DomainToRaw(domainEvent: int): (raw: Uint32)
      ensures (raw - myIdentity) % UINT32_LIMIT == domainEvent % UINT32_LIMIT
      ensures 0 <= domainEvent && myIdentity + domainEvent < UINT32_LIMIT ==> raw == myIdentity + domainEvent
    {
      (myIdentity + domainEvent % UINT32_LIMIT) % UINT32_LIMIT
    }
  }

  /** The constructor keeps both arguments, as the two accessors report. */
  lemma AccessorsReturnConstructorArguments(identity: Uint32, size: Uint32)
    ensures Domain(identity, size).Identity() == identity
    ensures Domain(identity, size).Size() == size
  {
  }

  /** Every 32-bit offset survives the trip out to a raw type and back, wrap-around included. */
  lemma DomainRoundTrip(domain: Domain, d: Uint32)
    ensures domain.RawToDomain(domain.DomainToRaw(d)) == d
  {
  }

  /** Every 32-bit raw type survives the trip in to an offset and back. */
  lemma RawRoundTrip(domain: Domain, raw: Uint32)
    ensures domain.DomainToRaw(domain.RawToDomain(raw)) == raw
  {
  }

  /** A raw type below the identity still has an offset: it wraps to the top of the range. */
  lemma RawBelowIdentityWraps()
    ensures Domain(0x8000, 16).RawToDomain(0x7FFF) == 0xFFFF_FFFF
  {
  }
}
