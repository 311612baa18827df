/** The worker's records: a route as fetched from the store and the log written for one probe. */
module WorkerRoute {
  import opened Wrappers
  import opened JsonValue

  /** One active route (`monitoringInterval` is in seconds, `responseTimeThreshold` in milliseconds). */
  datatype Route = Route(
    id: string,
    name: string,
    url: string,
    methodName: string,
    requestHeaders: Option<Json>,
    requestBody: Option<string>,
    expectedStatusCode: Option<int>,
    responseTimeThreshold: Option<int>,
    monitoringInterval: int,
    retries: Option<int>,
    alertEmail: Option<string>,
    isActive: bool)

  /** The row inserted into the request log after one probe. */
  datatype RequestLog = RequestLog(
    id: string,
    statusCode: Option<int>,
    responseTime: Option<int>,
    isSuccess: bool,
    routeId: string)
}
