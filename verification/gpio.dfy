/** Digital pin levels, as returned by `digitalRead` and driven by `digitalWrite`. */
module Gpio {

  datatype Level = Low | High
}
