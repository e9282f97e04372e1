/**
 * The request object the middleware and the viewsets work on: its headers,
 * its decoded body, whether `request.user` is truthy, and the run-time
 * `workspace_id` attribute the middleware may attach.
 */
module Http {
  import opened Common

  class Request {
    /** Header names are kept in their canonical spelling (`Authorization`). */
    const headers: map<string, string>
    const userTruthy: bool
    var data: Payload
    var workspaceAttr: WorkspaceAttr

    constructor (headers: map<string, string>, userTruthy: bool, data: Payload)
      ensures this.headers == headers && this.userTruthy == userTruthy
      ensures this.data == data && workspaceAttr == Unset
    {
      this.headers := headers;
      this.userTruthy := userTruthy;
      this.data := data;
      workspaceAttr := Unset;
    }
  }
}
