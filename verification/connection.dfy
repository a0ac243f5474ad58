/** The connection configuration the provider passes around, persists and
    hands to the driver: scheme, host, port and the optional credentials and
    database name. */
module Connection {
  import opened Wrappers

  /** A port is either the digit string taken from a URL or a number. */
  datatype Port = PortDigits(digits: string) | PortNumber(number: int)

  datatype Config = Config(
    scheme: string,
    host: string,
    port: Port,
    username: Option<string>,
    password: Option<string>,
    database: Option<string>)

  /** Scheme and port used when a connection URL leaves them out. */
  const DefaultScheme: string := "neo4j"
  const DefaultPort: int := 7687
}
