/** What node daemons send to the switch. */
module Messages {
  /** A participant's request for a channel. */
  datatype GetMsg = GetMsg(tag: nat, ids: seq<nat>, clientId: nat, ip: nat, localQp: nat, mac: nat, port: nat)

  datatype Request = GetChannel(get: GetMsg) | UnrefChannel(tag: nat)
}
