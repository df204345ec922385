/** What the calls of the hardware abstraction layer return. */
module Hal {
  datatype Status = HAL_OK | HAL_ERROR | HAL_BUSY | HAL_TIMEOUT
}
