/** Status words returned by the device. Zero is the internal "no error". */
module Status {
  const SW_OK := 0x9000
  const SW_WRONG_LENGTH := 0x6700
  const SW_SECURITY_AMOUNT_CHAIN_CONTROL := 0x6913
  const SW_SECURITY_COMMITMENT_CHAIN_CONTROL := 0x6914
  const SW_SECURITY_OUTKEYS_CHAIN_CONTROL := 0x6915
  const SW_SECURITY_HMAC := 0x6917
  const SW_SECURITY_RANGE_VALUE := 0x6918
  const SW_SECURITY_INTERNAL := 0x6919
  const SW_SECURITY_MAX_SIGNATURE_REACHED := 0x691A
  const SW_SECURITY_PREFIX_HASH := 0x691B
  const SW_SECURITY_CHANGE_ADDRESS := 0x691C
  const SW_SECURITY_USER_NOT_APPROVED := 0x691D
  const SW_SECURITY_PREHASH_NOT_FINALIZED := 0x691E
  const SW_SECURITY_PREFIX_NOT_FINALIZED := 0x691F
  const SW_SECURITY_OUTPUTS_NOT_REVIEWED := 0x6920
  const SW_SECURITY_PAYMENT_ID := 0x6921
  const SW_COMMAND_NOT_ALLOWED := 0x6980
  const SW_SUBCOMMAND_NOT_ALLOWED := 0x6981
  const SW_WRONG_DATA := 0x6984
  const SW_WRONG_DATA_RANGE := 0x6985
  const SW_WRONG_P1P2 := 0x6b00
  const SW_INS_NOT_SUPPORTED := 0x6d00
  const SW_PROTOCOL_NOT_SUPPORTED := 0x6e00
  const ERROR_IO_FULL := 0x2_0000
}
