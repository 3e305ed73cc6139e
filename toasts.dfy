/** The `toast.success` / `toast.error` notifications the components raise, as values. */
module Toasts {
  datatype Toast = SuccessToast(message: string) | ErrorToast(message: string)
}
