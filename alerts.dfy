/** The dialogs the screens raise with `Alert.alert(title, message)`. */
module Alerts {
  datatype Alert = Alert(title: string, message: string)
}
