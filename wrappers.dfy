/** An optional value: a C++ `std::optional`, a nullable pointer, a lazily
    initialised member or a `nullopt` argument. */
module Wrappers {
  datatype Option<+T> = None | Some(value: T)
}
