/** The ways a WKB decode can fail; the exceptions of the reader, by kind. */
module WkbErrors {

  import opened GeometryTypes

  datatype WkbError =
    /** A primitive read needed more bytes than remain. */
    | Truncated
    /** The type code names no known geometry type or dimension. */
    | UnsupportedCode(code: int)
    /** The header names GEOMETRY, CURVE or SURFACE. */
    | AbstractType(geometryType: GeometryType)
    /** The decoded geometry is not of the expected class. */
    | TypeMismatch(expected: GeometryType, actual: GeometryType)
}
