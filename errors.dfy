/** The error codes a FeatureRelease operation can fail with. Only the code is
    modelled; messages and the error class hierarchy are not. */
module Errors {

  datatype ErrorCode =
    | AlreadyInitialized           // ERROR_ALREADY_INITIALIZED
    | IncorrectConfig              // ERROR_INCORRECT_CONFIG
    | CannotDownloadConfig         // ERROR_CANNOT_DOWNLOAD_CONFIG
    | ConfigPollingAlreadyStarted  // ERROR_CONFIG_POLLING_ALREADY_STARTED
}
