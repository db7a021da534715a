/**
 The states of a DRM session, as every session class and the session manager use them.
 */
module DrmStates {
  datatype KeyState = KEY_INIT | KEY_PENDING | KEY_READY | KEY_ERROR | KEY_CLOSED | KEY_ERROR_EMPTY_SESSION_ID
}
