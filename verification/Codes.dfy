/** The codes of the client/server protocol. */
module Codes {
  const CP_LOGIN_SUCCESSFUL := 3
  const CP_LOGIN_FAILED := 4
  const CP_CLIENT_SEND_FILE := 5
  const CP_CLIENT_SEND_FILE_ACK := 6
  const CP_CLIENT_SEND_FILE_SIZE_ACK := 7
  const CP_CLIENT_END_CONNECTION := 8
  const CP_SEND_FILE_COMPLETE := 9
  const CP_SEND_FILE_COMPLETE_ACK := 11
  const CP_SYNC_CLIENT := 12
  const CP_SYNC_FILE_OK := 14
  const CP_CLIENT_GET_FILE := 18
  const CP_CLIENT_GET_FILE_ACK := 19
  const CP_CLIENT_GET_FILE_SIZE_ACK := 20
  const CP_CLIENT_GET_FILE_EXISTS := 21
  const CP_CLIENT_DELETE_FILE := 26
  const CP_CLIENT_DELETE_FILE_ACK := 27
  const CP_CLIENT_GET_FILE_LOCK := 28
  const CP_CLIENT_GET_FILE_LOCK_ACK := 29
  const CP_CLIENT_GET_FILE_UNLOCK := 31
  const CP_CLIENT_GET_FILE_UNLOCK_ACK := 32
  const CP_CLIENT_NUMBER_OF_FILES_ACK := 38
}
