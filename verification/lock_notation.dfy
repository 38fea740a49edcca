/** The value space of locked notations (the maps a lock file stores for a
    resolved dependency) and the layout of the record stored for a vendor
    dependency: its name, its path inside the host, and the host's own
    notation nested in full. */
module LockNotation {

  /** A notation value: a string or a nested map. */
  datatype Notation = Text(text: string) | Record(fields: map<string, Notation>)

  datatype Option<T> = None | Some(value: T)

  /** The keys of a vendor record (the name, vendor-path and host keys of
      the notation parser). */
  const NameKey: string := "name"
  const VendorPathKey: string := "vendorPath"
  const HostKey: string := "host"

  /** What a vendor record carries. */
  datatype VendorRecord = VendorRecord(name: string, vendorPath: string, host: map<string, Notation>)

  /** The lock-file map of a vendor record: exactly the three keys. */
  function Encode(rec: VendorRecord): (m: map<string, Notation>)
    ensures m.Keys == {NameKey, VendorPathKey, HostKey}
  {
    map[NameKey := Text(rec.name), VendorPathKey := Text(rec.vendorPath), HostKey := Record(rec.host)]
  }

  /** Reads a vendor record back from a lock-file map; a map with other
      keys or with values of the wrong shape is not a vendor record. */
  function Decode(m: map<string, Notation>): (r: Option<VendorRecord>)
    ensures r.Some? ==> m.Keys == {NameKey, VendorPathKey, HostKey}
  {
    if m.Keys == {NameKey, VendorPathKey, HostKey}
       && m[NameKey].Text? && m[VendorPathKey].Text? && m[HostKey].Record?
    then Some(VendorRecord(m[NameKey].text, m[VendorPathKey].text, m[HostKey].fields))
    else None
  }

  /** Decoding an encoded record gives the record back. */
  lemma DecodeEncode(rec: VendorRecord)
    ensures Decode(Encode(rec)) == Some(rec)
  {
    var m := Encode(rec);
    assert m[NameKey] == Text(rec.name);
    assert m[VendorPathKey] == Text(rec.vendorPath);
    assert m[HostKey] == Record(rec.host);
  }

  /** A map that decodes is exactly the encoding of what it decodes to, so
      equal records are written identically and distinct ones differently. */
  lemma EncodeDecode(m: map<string, Notation>)
    requires Decode(m).Some?
    ensures Encode(Decode(m).value) == m
  {
  }

  lemma EncodeInjective(a: VendorRecord, b: VendorRecord)
    requires Encode(a) == Encode(b)
    ensures a == b
  {
    DecodeEncode(a);
    DecodeEncode(b);
  }
}
