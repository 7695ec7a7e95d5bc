/** The status codes that all the programs share, and the size of a receive buffer. */
module Constants {
  const SUCCESS := 0
  const FAILURE := -1
  const END := 2

  const BUFFER := 1024
}
