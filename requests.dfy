/** The data of one proxied request: what the servlet container reports about
    the incoming HTTP request, and the `RequestedData` the proxy derives from it. */
module Requests {
  import opened Common

  /** The parts of an `HttpServletRequest` the proxy reads. */
  datatype ServletRequest = ServletRequest(
    scheme: string,
    serverName: string,
    serverPort: int,
    contextPath: string,
    servletPath: string,
    pathInfo: Option<string>,
    queryString: Option<string>,
    /** The If-Modified-Since header as a timestamp, -1 when absent. */
    ifModifiedSince: int,
    userAgent: Option<string>)

  /** `RequestedData`, including the members its callers use beyond the five
      fields it declares (the two URLs, the scheme, the server name and port). */
  datatype RequestedData = RequestedData(
    requestedResource: string,
    requestModifiedSince: int,
    requestedTarget: string,
    requestedBackend: string,
    userAgent: Option<string>,
    url: string,
    hostUrl: string,
    scheme: string,
    serverName: string,
    serverPort: int)
}
