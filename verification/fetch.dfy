/** `fetch.Entry`: one row as the query service returns it, one field per
    column of the real-time log table. */
module Fetch {
  import opened GoTypes

  datatype Entry = Entry(
    timestamp: string,
    clientIP: string,
    status: int64,
    bytes: int64,
    httpMethod: string,
    protocol: string,
    host: string,
    uriStem: string,
    edgeLocation: string,
    edgeRequestID: string,
    hostHeader: string,
    timeTaken: Float64,
    protoVersion: string,
    ipVersion: string,
    userAgent: string,
    referer: string,
    cookie: string,
    uriQuery: string,
    edgeResponseResultType: string,
    sslProtocol: string,
    sslCipher: string,
    edgeResultType: string,
    contentType: string,
    contentLength: int64,
    edgeDetailedResultType: string,
    country: string,
    cacheBehaviorPathPattern: string,
    year: string,
    month: string,
    day: string)
}
