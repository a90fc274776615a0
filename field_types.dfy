/** The primitive field kinds of a layout (type_enumeration.h). The merge engine only
    carries the tag along; it never inspects it. */
module FieldTypes {

  datatype FieldType =
    | Byte
    | Short
    | Integer
    | Float
    | Double
    | Long
    | CString
    | SizedBuffer
    | Structure
}
