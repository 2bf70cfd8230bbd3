/** `rtl.Record`: the typed, enriched record the batch is made of. */
module Rtl {
  import opened GoTypes
  import GeoIP
  import UserAgent

  /** A `time.Time`, as milliseconds since the Unix epoch (UTC). */
  datatype Instant = UnixMilli(ms: int64)

  datatype Record = Record(
    timestamp: Instant,
    clientIPAddr: string,
    status: int64,
    bytes: int64,
    httpMethod: string,
    protocol: string,
    host: string,
    uriStem: string,
    edgeLocation: string,
    edgeRequestID: string,
    hostHeader: string,
    timeTaken: Float64,
    protoVersion: string,
    ipVersion: string,
    referer: string,
    cookie: string,
    uriQuery: string,
    edgeResponseResultType: string,
    sslProtocol: string,
    sslCipher: string,
    edgeResultType: string,
    contentType: string,
    contentLength: int64,
    edgeDetailedResultType: string,
    country: string,
    cacheBehaviorPathPattern: string,
    year: int64,
    month: int64,
    day: int64,
    clientIP: GeoIP.GeoIPData,
    userAgent: UserAgent.Record)
}
