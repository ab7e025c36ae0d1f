/** The responder's configuration record (cmd/docker-net-connect/mdns/config.go). */
module MdnsConfig {
  import opened NetIP

  /** The logger is left out; queryInterval is carried but never read by the
      responder. Keys of localNamesToIps are, by convention, names ending in
      ".local." (trailing dot included); nothing enforces it. */
  datatype Config = Config(queryInterval: int, localNamesToIps: map<string, IP>)

  const LocalSuffix: string := ".local."

  /** The naming convention for table keys, stated as a predicate. */
  predicate KeysEndInLocal(c: Config) {
    forall name :: name in c.localNamesToIps ==>
      |name| >= |LocalSuffix| && name[|name| - |LocalSuffix|..] == LocalSuffix
  }
}
