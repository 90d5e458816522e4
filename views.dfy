/** SwiftUI's type-erased `AnyView`, kept abstract: a view is known only by what it shows. */
module Views {
  datatype AnyView = AnyView(content: string)
}
