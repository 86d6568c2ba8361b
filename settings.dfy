/** The producer-side configuration read by the tracker and the outbound client (middlware/config.go). */
module Settings {

  datatype Config = Config(projectId: string, apiKey: string, serverUrl: string, enabled: bool)

  /** Capture on, sending to the local collector's stream endpoint, with no project identifier or key. */
  function DefaultConfig(): (c: Config)
    ensures c.enabled
    ensures c.serverUrl == "ws://localhost:8080/stream"
    ensures c.projectId == "" && c.apiKey == ""
  {
    Config(projectId := "", apiKey := "", serverUrl := "ws://localhost:8080/stream", enabled := true)
  }
}
