/**
 The messages of proto/dnsblockchain/dnsblockchain/v1/domain.proto as values.
 Text is a byte string on the wire and a character string in the registry.
 */
module DomainTypes {

  datatype NsRecord<Text> = NsRecord(name: Text, ipv4: seq<Text>, ipv6: seq<Text>)

  datatype Domain<Text> = Domain(
    id: nat,
    name: Text,
    owner: Text,
    nsRecords: seq<NsRecord<Text>>,
    creator: Text,
    expiration: nat)
}
