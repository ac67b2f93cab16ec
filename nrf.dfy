/** Types and status codes shared by the firmware modules.
    The numeric values are those of the Nordic SDK headers nrf_error.h and
    ble_types.h, which are not part of this model. */
module Nrf {

  /** A uint32_t status code, as returned by SoftDevice and driver calls. */
  type Status = x: int | 0 <= x < 0x1_0000_0000

  /** NRF_SUCCESS */
  const Success: Status := 0
  /** NRF_ERROR_INVALID_STATE */
  const ErrorInvalidState: Status := 8
  /** NRF_ERROR_NULL */
  const ErrorNull: Status := 14

  /** BLE_CONN_HANDLE_INVALID: the connection handle when no link is up. */
  const ConnHandleInvalid: bv16 := 0xFFFF

  /** int8_t */
  newtype int8 = x: int | -128 <= x < 128
}
