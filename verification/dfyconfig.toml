includes = ["**/*.dfy"]

[options]
