/** Shared constants of the Pi-AVR link (src/const/constant.h) and the byte type. */
module Constants {
  type byte = b: int | 0 <= b < 256

  datatype Option<+T> = None | Some(value: T)

  const SERIAL_ID_TO_IGNORE: byte := 0
  const EYE_CATCH: byte := 250
  const SPI_READ_OVERFLOW: byte := 245
  const SPI_WRITE_UNDERFLOW: byte := 240
  const BUFFER_INIT_PATTERN: byte := 230

  const MSG_OVERHEAD := 6
  const LED_ARRAY_SIZE := 20

  const MSG_ID_HANDSHAKE: byte := 2
  const MSG_ID_IDLE: byte := 3
  const MSG_ID_LED_ARRAY: byte := 4
  const MSG_ID_QUERY_NAME: byte := 7
  const MSG_ID_QUERY_NUMBER: byte := 8
  const MSG_ID_STATUS: byte := 11
  const MSG_ID_SYNC_CLOCK: byte := 13
  const MSG_ID_VERSION: byte := 14

  const PROTOCOL_VERSION: byte := 1

  const STATUS_SUCCESS: byte := 0
  const STATUS_FAIL: byte := 1
  const STATUS_UNKNOWN_MSG: byte := 2

  const PARAMETER_GO_AHEAD: byte := 0
  const PARAMETER_NEGATIVE: byte := 1
  const PARAMETER_POSITIVE: byte := 2
  const PARAMETER_PLAYLIST: byte := 3
  const PARAMETER_TRACK: byte := 4
  const PARAMETER_VOLUME: byte := 5

  /** What the device is doing (src/avr/mode.h). */
  datatype Mode = MenuMode | Watch | Radio
}
