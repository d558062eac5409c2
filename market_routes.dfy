/** Navigation route names. */
module MarketRoutes {
  const HOME_SCREEN: string := "HomeScreen"
  const SIGN_IN_SCREEN: string := "SignInScreen"
  const SIGN_UP_SCREEN: string := "SignUpScreen"
}
