/** The ways a run of the upload client stops early. */
module Errors {

  /** Why a run stops early. */
  datatype Error =
    | AuthenticationError   // the token endpoint answered with a non-2xx status
    | MalformedResponse     // a response body that is not the JSON the client expects
    | AssessmentNotFound    // no usable assessment type for the requested frequency
    | UploadError           // a chunk upload raised (network failure or unreadable reply)
}
